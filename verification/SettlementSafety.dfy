/** What every run of the settlement system keeps. */
module SettlementSafety {
  import opened Wrappers
  import opened Token
  import opened Wire
  import opened Settle
  import opened Settlement

  // ---------------------------------------------------------------------
  // Invariants
  // ---------------------------------------------------------------------

  predicate Owns(call: Call) {
    call.phase.Preparing? || call.phase.Sending?
  }

  predicate AtKey(call: Call, i: nat, nonce: string) {
    call.instance == i && call.nonce == nonce
  }

  predicate CallShape(call: Call) {
    && (call.sent.Some? ==> call.claimed && call.sent.value != "")
    && (call.returned ==> call.sent.Some?)
    && match call.phase
       case Arrived => !call.claimed
       case Verified => !call.claimed
       case Preparing => call.claimed && call.sent.None?
       case Sending(h) => call.claimed && call.sent == Some(h) && !call.returned
       case Awaiting(h) => call.claimed && call.sent == Some(h) && call.returned
       case Replied(_) => true
  }

  ghost predicate CallsInv(w: World) {
    && w.alive <= w.guards.Keys
    && forall c :: c in w.calls ==> w.calls[c].instance in w.guards && CallShape(w.calls[c])
  }

  /** Call `c` owns the nonce of its key, or its send returned a hash for it. */
  ghost predicate OwnedBy(w: World, c: nat, i: nat, nonce: string) {
    c in w.calls && AtKey(w.calls[c], i, nonce) && Owns(w.calls[c])
  }

  ghost predicate BroadcastBy(w: World, c: nat, i: nat, nonce: string, txHash: string) {
    c in w.calls && AtKey(w.calls[c], i, nonce) && w.calls[c].returned && w.calls[c].sent == Some(txHash)
  }

  ghost predicate GuardInv(w: World) {
    && (forall c, i, nonce :: OwnedBy(w, c, i, nonce) ==> i in w.guards && nonce in w.guards[i] && w.guards[i][nonce] == Inflight)
    && (forall c, i, nonce, h :: BroadcastBy(w, c, i, nonce, h) ==> i in w.guards && nonce in w.guards[i] && w.guards[i][nonce] == Done(h))
    && (forall c, d, i, nonce :: OwnedBy(w, c, i, nonce) && OwnedBy(w, d, i, nonce) ==> c == d)
    && (forall c, d, i, nonce, h, h' :: BroadcastBy(w, c, i, nonce, h) && BroadcastBy(w, d, i, nonce, h') ==> c == d)
    && (forall i, nonce :: i in w.guards && nonce in w.guards[i] && w.guards[i][nonce].Inflight? ==> exists c :: OwnedBy(w, c, i, nonce))
    && (forall i, nonce :: i in w.guards && nonce in w.guards[i] && w.guards[i][nonce].Done? ==>
          exists c :: BroadcastBy(w, c, i, nonce, w.guards[i][nonce].txHash))
  }

  ghost predicate PoolInv(w: World) {
    && (forall c :: c in w.calls && w.calls[c].sent.Some? ==>
          w.calls[c].sent.value in w.wire && w.wire[w.calls[c].sent.value] == w.calls[c].calldata)
    && (forall h :: h in w.wire ==> exists c :: c in w.calls && w.calls[c].sent == Some(h))
    && w.pool <= w.wire.Keys && w.receipts.Keys <= w.pool
  }

  function SpentPairs(log: seq<Landed>): set<(nat, nat)> {
    set k | 0 <= k < |log| :: UsedPair(log[k].authorization)
  }

  ghost predicate LedgerInv(ledger: Ledger, w: World) {
    && Total(w.ledger.balances) == Total(ledger.balances)
    && w.ledger.used == ledger.used + SpentPairs(w.log)
    && (forall k :: 0 <= k < |w.log| ==> UsedPair(w.log[k].authorization) !in ledger.used)
    && (forall j, k :: 0 <= j < k < |w.log| ==> UsedPair(w.log[j].authorization) != UsedPair(w.log[k].authorization))
  }

  ghost predicate LandedVia(w: World, h: string, a: Authorization) {
    exists k :: 0 <= k < |w.log| && w.log[k] == Landed(a, Some(h))
  }

  ghost predicate ReceiptInv(w: World) {
    && (forall h :: h in w.receipts && w.receipts[h] ==> h in w.wire && LandedVia(w, h, w.wire[h]))
    && (forall k :: 0 <= k < |w.log| && w.log[k].via.Some? ==>
          var h := w.log[k].via.value; h in w.wire && w.log[k].authorization == w.wire[h] && h in w.receipts && w.receipts[h])
  }

  predicate MinedAs(w: World, txHash: Option<string>, success: bool) {
    txHash.Some? && txHash.value in w.receipts && w.receipts[txHash.value] == success
  }

  /** What a reply says about the transaction is so. */
  ghost predicate Truthful(w: World, c: nat)
    requires c in w.calls && w.calls[c].phase.Replied?
  {
    var call := w.calls[c];
    var r := call.phase.reply;
    // an owner names a transaction exactly when its send returned the hash
    && (call.claimed ==> (NamesTransaction(r) <==> call.returned))
    && (call.returned ==> r.body.transaction == call.sent)
    // success is claimed only after a success receipt, failure without a timeout only after a revert
    && (r.body.success == Some(true) ==> call.returned && MinedAs(w, call.sent, true))
    && (call.returned && r.status == 200 && r.body.success == Some(false) ==>
          MinedAs(w, call.sent, false))
    && (call.returned ==> r.status == 200 || r.status == 504)
    // a call that owned nothing names only the broadcast of another call on its key
    && (!call.claimed && NamesTransaction(r) ==>
          r.status == 409 && exists d :: d != c && BroadcastBy(w, d, call.instance, call.nonce, r.body.transaction.value))
    && (r.status == 409 ==> !call.claimed)
    && (200 <= r.status < 300 ==> r.status == 200 && r.body.success.Some?)
  }

  ghost predicate ReplyInv(w: World) {
    forall c :: c in w.calls && w.calls[c].phase.Replied? ==> Truthful(w, c)
  }

  ghost predicate Inv(ledger: Ledger, w: World) {
    CallsInv(w) && GuardInv(w) && PoolInv(w) && LedgerInv(ledger, w) && ReceiptInv(w) && ReplyInv(w)
  }

  // ---------------------------------------------------------------------
  // Preservation
  // ---------------------------------------------------------------------

  /** Steps of the chain and of processes, which leave every call alone. */
  predicate Environmental(s: Step) {
    s.Boot? || s.Crash? || s.NodeAccepts? || s.Mine? || s.Revert? || s.Block? || s.ForeignSettle? || s.ForeignMove?
  }

  lemma EnvironmentLeavesCalls(w: World, s: Step)
    requires Enabled(w, s) && Environmental(s)
    ensures var w' := Apply(w, s);
      && w'.calls == w.calls && w'.wire == w.wire
      && (forall i :: i in w.guards ==> i in w'.guards && w'.guards[i] == w.guards[i])
  {
  }

  /** A call's step moves that call alone, to a well-formed one. */
  lemma CallMoves(w: World, s: Step)
    requires CallsInv(w) && Enabled(w, s) && !Environmental(s)
    ensures var w' := Apply(w, s);
      && s.call in w'.calls && w'.calls == w.calls[s.call := w'.calls[s.call]]
      && w'.guards.Keys == w.guards.Keys && w'.alive == w.alive
      && w'.calls[s.call].instance in w.guards && CallShape(w'.calls[s.call])
  {
    assert s.call in w.calls ==> CallShape(w.calls[s.call]);
  }

  lemma CallsKept(w: World, s: Step)
    requires CallsInv(w) && Enabled(w, s)
    ensures CallsInv(Apply(w, s))
  {
    if Environmental(s) {
      EnvironmentLeavesCalls(w, s);
    } else {
      CallMoves(w, s);
    }
  }

  lemma LedgerKept(ledger: Ledger, w: World, s: Step)
    requires LedgerInv(ledger, w) && Enabled(w, s)
    ensures LedgerInv(ledger, Apply(w, s))
  {
    var w' := Apply(w, s);
    match s {
      case Mine(h, now) => ExecutionKept(ledger, w, w', w.wire[h], Some(h), now);
      case ForeignSettle(a, now) => ExecutionKept(ledger, w, w', a, None, now);
      case ForeignMove(from, to, value) => MoveConserves(w.ledger.balances, from, to, value);
      case _ =>
    }
  }

  lemma ExecutionKept(ledger: Ledger, w: World, w': World, a: Authorization, via: Option<string>, now: nat)
    requires LedgerInv(ledger, w) && Admissible(w.ledger, a, now)
    requires w'.ledger == Execute(w.ledger, a, now) && w'.log == w.log + [Landed(a, via)]
    ensures LedgerInv(ledger, w')
  {
    MoveConserves(w.ledger.balances, a.from, a.to, a.value);
    assert SpentPairs(w'.log) == SpentPairs(w.log) + {UsedPair(a)} by {
      assert w'.log[|w.log|].authorization == a;
      forall k | 0 <= k < |w.log| ensures UsedPair(w.log[k].authorization) in SpentPairs(w'.log) {
        assert w'.log[k] == w.log[k];
      }
    }
    forall k | 0 <= k < |w.log| ensures UsedPair(w.log[k].authorization) != UsedPair(a) {
      assert UsedPair(w.log[k].authorization) in SpentPairs(w.log);
    }
  }

  /** Only a send that departs changes who sent what. */
  lemma OnlySendsDepart(w: World, s: Step)
    requires Enabled(w, s) && !s.SendDeparts?
    ensures var w' := Apply(w, s);
      && w'.wire == w.wire && w.calls.Keys <= w'.calls.Keys
      && (forall c :: c in w.calls ==> w'.calls[c].sent == w.calls[c].sent && w'.calls[c].calldata == w.calls[c].calldata)
      && (forall c :: c in w'.calls && c !in w.calls ==> w'.calls[c].sent.None?)
  {
    if Environmental(s) {
      EnvironmentLeavesCalls(w, s);
    } else {
      OneCallSendsNothing(w, s);
    }
  }

  lemma OneCallSendsNothing(w: World, s: Step)
    requires Enabled(w, s) && !s.SendDeparts? && !Environmental(s)
    ensures var w' := Apply(w, s);
      && w'.wire == w.wire && s.call in w'.calls && w'.calls == w.calls[s.call := w'.calls[s.call]]
      && (if s.call in w.calls
          then w'.calls[s.call].sent == w.calls[s.call].sent && w'.calls[s.call].calldata == w.calls[s.call].calldata
          else w'.calls[s.call].sent.None?)
  {
  }

  lemma TakenKept(w: World, s: Step)
    requires w.pool <= w.wire.Keys && w.receipts.Keys <= w.pool && Enabled(w, s)
    ensures var w' := Apply(w, s); w'.pool <= w'.wire.Keys && w'.receipts.Keys <= w'.pool
  {
  }

  lemma DepartureKept(w: World, c: nat, h: string)
    requires CallsInv(w) && PoolInv(w) && Enabled(w, SendDeparts(c, h))
    ensures PoolInv(Apply(w, SendDeparts(c, h)))
  {
    var w' := Apply(w, SendDeparts(c, h));
    assert CallShape(w.calls[c]) && w.calls[c].sent.None?;
    forall g | g in w'.wire ensures exists d :: d in w'.calls && w'.calls[d].sent == Some(g) {
      if g == h {
        assert w'.calls[c].sent == Some(h);
      } else {
        var d :| d in w.calls && w.calls[d].sent == Some(g);
        assert d in w'.calls && w'.calls[d].sent == Some(g);
      }
    }
  }

  lemma PoolKept(w: World, s: Step)
    requires CallsInv(w) && PoolInv(w) && Enabled(w, s)
    ensures PoolInv(Apply(w, s))
  {
    if s.SendDeparts? {
      DepartureKept(w, s.call, s.txHash);
    } else {
      OnlySendsDepart(w, s);
      TakenKept(w, s);
      SendersUntouched(w, Apply(w, s));
    }
  }

  lemma SendersUntouched(w: World, w': World)
    requires PoolInv(w) && w'.wire == w.wire && w.calls.Keys <= w'.calls.Keys
    requires forall c :: c in w.calls ==> w'.calls[c].sent == w.calls[c].sent && w'.calls[c].calldata == w.calls[c].calldata
    requires forall c :: c in w'.calls && c !in w.calls ==> w'.calls[c].sent.None?
    requires w'.pool <= w'.wire.Keys && w'.receipts.Keys <= w'.pool
    ensures PoolInv(w')
  {
    forall h | h in w'.wire ensures exists c :: c in w'.calls && w'.calls[c].sent == Some(h) {
      var c :| c in w.calls && w.calls[c].sent == Some(h);
      assert c in w'.calls && w'.calls[c].sent == Some(h);
    }
  }

  lemma ReceiptKept(w: World, s: Step)
    requires PoolInv(w) && ReceiptInv(w) && Enabled(w, s)
    ensures ReceiptInv(Apply(w, s))
  {
    var w' := Apply(w, s);
    RecordsGrow(w, s);
    forall h | h in w'.receipts && w'.receipts[h] ensures h in w'.wire && LandedVia(w', h, w'.wire[h]) {
      if h in w.receipts {
        assert LandedVia(w, h, w.wire[h]);
        var k :| 0 <= k < |w.log| && w.log[k] == Landed(w.wire[h], Some(h));
        assert w'.log[k] == w.log[k];
      } else {
        assert w'.log[|w.log|] == Landed(w.wire[h], Some(h));
      }
    }
    forall k | 0 <= k < |w'.log| && w'.log[k].via.Some?
      ensures var h := w'.log[k].via.value; h in w'.wire && w'.log[k].authorization == w'.wire[h] && h in w'.receipts && w'.receipts[h]
    {
      assert k < |w.log| ==> w'.log[k] == w.log[k];
    }
  }

  /** The wire, the receipts and the log only grow; a success comes with its log entry. */
  lemma RecordsGrow(w: World, s: Step)
    requires w.pool <= w.wire.Keys && Enabled(w, s)
    ensures var w' := Apply(w, s);
      && (forall h :: h in w.wire ==> h in w'.wire && w'.wire[h] == w.wire[h])
      && (forall h :: h in w.receipts ==> h in w'.receipts && w'.receipts[h] == w.receipts[h])
      && w.log <= w'.log && |w'.log| <= |w.log| + 1
      && (forall h :: h in w'.receipts && h !in w.receipts && w'.receipts[h] ==>
            h in w.wire && w'.log == w.log + [Landed(w.wire[h], Some(h))])
      && (w'.log != w.log && w'.log[|w.log|].via.Some? ==>
            var h := w'.log[|w.log|].via.value;
            h in w.wire && w'.log[|w.log|].authorization == w.wire[h] && h in w'.receipts && w'.receipts[h])
  {
  }

  // -- the guard ----------------------------------------------------------

  /** A call keeps its key, and keeps what the guard owes it unless it moves itself. */
  predicate SameStanding(before: Call, after: Call) {
    && after.instance == before.instance && after.nonce == before.nonce
    && Owns(after) == Owns(before) && after.returned == before.returned
    && (before.returned ==> after.sent == before.sent)
  }

  /** Steps that touch neither the guards nor any call's standing. */
  lemma GuardUntouched(w: World, w': World)
    requires GuardInv(w)
    requires w.guards == w'.guards && w.calls.Keys <= w'.calls.Keys
    requires forall c :: c in w.calls ==> SameStanding(w.calls[c], w'.calls[c])
    requires forall c :: c in w'.calls && c !in w.calls ==> !Owns(w'.calls[c]) && !w'.calls[c].returned
    ensures GuardInv(w')
  {
    assert forall c, i, nonce :: OwnedBy(w', c, i, nonce) <==> OwnedBy(w, c, i, nonce);
    assert forall c, i, nonce, h :: BroadcastBy(w', c, i, nonce, h) <==> BroadcastBy(w, c, i, nonce, h);
  }

  /** Call `c` alone moves, and only its own guard entry changes. */
  ghost predicate MovesOnly(w: World, w': World, c: nat) {
    && c in w.calls && c in w'.calls && w.calls[c].instance in w.guards
    && w'.calls == w.calls[c := w'.calls[c]]
    && w'.calls[c].instance == w.calls[c].instance && w'.calls[c].nonce == w.calls[c].nonce
    && w'.guards.Keys == w.guards.Keys
    && (forall i, nonce :: i in w.guards && (i != w.calls[c].instance || nonce != w.calls[c].nonce) ==>
          ((nonce in w'.guards[i] <==> nonce in w.guards[i]) && (nonce in w.guards[i] ==> w'.guards[i][nonce] == w.guards[i][nonce])))
  }

  /** Entries away from the moved call's key keep the owner or broadcaster they had. */
  lemma OtherKeysKept(w: World, w': World, c: nat)
    requires MovesOnly(w, w', c)
    ensures var i0, n0 := w.calls[c].instance, w.calls[c].nonce;
      && (forall d, i, nonce :: (i != i0 || nonce != n0) ==> (OwnedBy(w', d, i, nonce) <==> OwnedBy(w, d, i, nonce)))
      && (forall d, i, nonce, h :: (i != i0 || nonce != n0) ==> (BroadcastBy(w', d, i, nonce, h) <==> BroadcastBy(w, d, i, nonce, h)))
      && (forall d :: d != c ==> (OwnedBy(w', d, i0, n0) <==> OwnedBy(w, d, i0, n0)))
      && (forall d, h :: d != c ==> (BroadcastBy(w', d, i0, n0, h) <==> BroadcastBy(w, d, i0, n0, h)))
  {
  }

  /** A call that owned nothing takes a free key. */
  lemma TakeKept(w: World, w': World, c: nat)
    requires GuardInv(w) && MovesOnly(w, w', c)
    requires var i0, n0 := w.calls[c].instance, w.calls[c].nonce;
      n0 !in w.guards[i0] && w'.guards == w.guards[i0 := w.guards[i0][n0 := Inflight]]
    requires Owns(w'.calls[c]) && !w'.calls[c].returned
    ensures GuardInv(w')
  {
    OtherKeysKept(w, w', c);
    assert OwnedBy(w', c, w.calls[c].instance, w.calls[c].nonce);
  }

  /** An owner's send returns, and its key is done. */
  lemma FinishKept(w: World, w': World, c: nat, h: string)
    requires GuardInv(w) && MovesOnly(w, w', c)
    requires var i0, n0 := w.calls[c].instance, w.calls[c].nonce;
      OwnedBy(w, c, i0, n0) && w'.guards == w.guards[i0 := w.guards[i0][n0 := Done(h)]]
    requires !Owns(w'.calls[c]) && w'.calls[c].returned && w'.calls[c].sent == Some(h) && !w.calls[c].returned
    ensures GuardInv(w')
  {
    OtherKeysKept(w, w', c);
    assert BroadcastBy(w', c, w.calls[c].instance, w.calls[c].nonce, h);
  }

  lemma ClaimKept(w: World, c: nat)
    requires CallsInv(w) && GuardInv(w) && Enabled(w, ClaimNonce(c))
    ensures GuardInv(Apply(w, ClaimNonce(c)))
  {
    var w' := Apply(w, ClaimNonce(c));
    assert CallShape(w.calls[c]);
    if w.calls[c].nonce in w.guards[w.calls[c].instance] {
      GuardUntouched(w, w');
    } else {
      TakeKept(w, w', c);
    }
  }

  lemma SendReturnsKept(w: World, c: nat)
    requires CallsInv(w) && GuardInv(w) && Enabled(w, SendReturns(c))
    ensures GuardInv(Apply(w, SendReturns(c)))
  {
    assert CallShape(w.calls[c]);
    FinishKept(w, Apply(w, SendReturns(c)), c, w.calls[c].phase.txHash);
  }

  lemma ThrowsKept(w: World, c: nat, unavailable: bool, detail: string)
    requires CallsInv(w) && GuardInv(w) && Enabled(w, Throws(c, unavailable, detail))
    ensures GuardInv(Apply(w, Throws(c, unavailable, detail)))
  {
    var w' := Apply(w, Throws(c, unavailable, detail));
    var i0, n0 := w.calls[c].instance, w.calls[c].nonce;
    assert OwnedBy(w, c, i0, n0) && !w.calls[c].returned;
    assert w'.guards == w.guards[i0 := w.guards[i0] - {n0}];
    OtherKeysKept(w, w', c);
    ReleaseKept(w, w', c);
  }

  lemma ReleaseKept(w: World, w': World, c: nat)
    requires GuardInv(w) && MovesOnly(w, w', c)
    requires var i0, n0 := w.calls[c].instance, w.calls[c].nonce;
      OwnedBy(w, c, i0, n0) && w'.guards == w.guards[i0 := w.guards[i0] - {n0}]
    requires !Owns(w'.calls[c]) && !w'.calls[c].returned && !w.calls[c].returned
    ensures GuardInv(w')
  {
    OtherKeysKept(w, w', c);
  }

  lemma GuardKept(w: World, s: Step)
    requires CallsInv(w) && GuardInv(w) && Enabled(w, s)
    ensures GuardInv(Apply(w, s))
  {
    match s {
      case ClaimNonce(c) => ClaimKept(w, c);
      case SendReturns(c) => SendReturnsKept(w, c);
      case Throws(c, unavailable, detail) => ThrowsKept(w, c, unavailable, detail);
      case Boot(i) => BootKept(w, i);
      case _ => StandingKept(w, s);
    }
  }

  lemma StandingKept(w: World, s: Step)
    requires CallsInv(w) && GuardInv(w) && Enabled(w, s) && !s.ClaimNonce? && !s.SendReturns? && !s.Throws? && !s.Boot?
    ensures GuardInv(Apply(w, s))
  {
    if Environmental(s) {
      EnvironmentLeavesGuards(w, s);
    } else {
      CallMoves(w, s);
      OwnStanding(w, s);
    }
    GuardUntouched(w, Apply(w, s));
  }

  lemma EnvironmentLeavesGuards(w: World, s: Step)
    requires Enabled(w, s) && Environmental(s) && !s.Boot?
    ensures Apply(w, s).guards == w.guards && Apply(w, s).calls == w.calls
  {
  }

  /** The step of one call that neither claims nor settles its key. */
  lemma OwnStanding(w: World, s: Step)
    requires CallsInv(w) && Enabled(w, s) && !Environmental(s) && !s.ClaimNonce? && !s.SendReturns? && !s.Throws?
    ensures var w' := Apply(w, s);
      && w.guards == w'.guards && s.call in w'.calls
      && (if s.call in w.calls then SameStanding(w.calls[s.call], w'.calls[s.call])
          else !Owns(w'.calls[s.call]) && !w'.calls[s.call].returned)
  {
    assert s.call in w.calls ==> CallShape(w.calls[s.call]);
  }

  lemma BootKept(w: World, i: nat)
    requires CallsInv(w) && GuardInv(w) && Enabled(w, Boot(i))
    ensures GuardInv(Apply(w, Boot(i)))
  {
    var w' := Apply(w, Boot(i));
    assert forall c, j, nonce :: OwnedBy(w', c, j, nonce) <==> OwnedBy(w, c, j, nonce);
    assert forall c, j, nonce, h :: BroadcastBy(w', c, j, nonce, h) <==> BroadcastBy(w, c, j, nonce, h);
  }

  // -- replies ------------------------------------------------------------

  /** What a finished call rests on never goes away. */
  lemma EvidenceStays(w: World, s: Step, d: nat)
    requires CallsInv(w) && Enabled(w, s) && d in w.calls
    ensures var w' := Apply(w, s);
      && d in w'.calls && w'.calls[d].instance == w.calls[d].instance && w'.calls[d].nonce == w.calls[d].nonce
      && (w.calls[d].returned ==> w'.calls[d].returned && w'.calls[d].sent == w.calls[d].sent)
      && (w.calls[d].phase.Replied? ==> w'.calls[d] == w.calls[d])
  {
    if Environmental(s) {
      EnvironmentLeavesCalls(w, s);
    } else {
      CallMoves(w, s);
      if d == s.call {
        OwnStepKeepsEvidence(w, s);
      }
    }
  }

  lemma OwnStepKeepsEvidence(w: World, s: Step)
    requires CallsInv(w) && Enabled(w, s) && !Environmental(s) && s.call in w.calls
    ensures var before, after := w.calls[s.call], Apply(w, s).calls[s.call];
      && after.instance == before.instance && after.nonce == before.nonce
      && (before.returned ==> after.returned && after.sent == before.sent)
      && !before.phase.Replied?
  {
    assert CallShape(w.calls[s.call]);
  }

  lemma ReceiptsStay(w: World, s: Step)
    requires Enabled(w, s)
    ensures forall h :: h in w.receipts ==> h in Apply(w, s).receipts && Apply(w, s).receipts[h] == w.receipts[h]
  {
  }

  lemma TruthfulStays(w: World, s: Step, c: nat)
    requires CallsInv(w) && GuardInv(w) && PoolInv(w) && Enabled(w, s)
    requires c in w.calls && w.calls[c].phase.Replied? && Truthful(w, c)
    ensures c in Apply(w, s).calls && Apply(w, s).calls[c] == w.calls[c] && Truthful(Apply(w, s), c)
  {
    EvidenceStays(w, s, c);
    ReceiptsStay(w, s);
    var call := w.calls[c];
    if !call.claimed && NamesTransaction(call.phase.reply) {
      var d :| d != c && BroadcastBy(w, d, call.instance, call.nonce, call.phase.reply.body.transaction.value);
      EvidenceStays(w, s, d);
      assert BroadcastBy(Apply(w, s), d, call.instance, call.nonce, call.phase.reply.body.transaction.value);
    }
  }

  /** A duplicate is answered with its key's standing. */
  lemma DuplicateIsTruthful(w: World, c: nat)
    requires CallsInv(w) && GuardInv(w) && Enabled(w, ClaimNonce(c))
    requires w.calls[c].nonce in w.guards[w.calls[c].instance]
    ensures Truthful(Apply(w, ClaimNonce(c)), c)
  {
    var w' := Apply(w, ClaimNonce(c));
    var i, nonce := w.calls[c].instance, w.calls[c].nonce;
    assert CallShape(w.calls[c]);
    if w.guards[i][nonce].Done? {
      var d :| BroadcastBy(w, d, i, nonce, w.guards[i][nonce].txHash);
      assert d != c && BroadcastBy(w', d, i, nonce, w.guards[i][nonce].txHash);
    }
  }

  lemma ReceiptIsTruthful(w: World, s: Step)
    requires CallsInv(w) && Enabled(w, s) && (s.ReceiptSeen? || s.ReceiptTimeout?)
    ensures Truthful(Apply(w, s), s.call)
  {
    assert CallShape(w.calls[s.call]);
  }

  lemma EarlyAnswerIsTruthful(w: World, s: Step, c: nat)
    requires CallsInv(w) && Enabled(w, s) && !Environmental(s) && !s.ClaimNonce? && !s.ReceiptSeen? && !s.ReceiptTimeout?
    requires c in w.calls && !w.calls[c].phase.Replied? && Apply(w, s).calls[c].phase.Replied?
    ensures Truthful(Apply(w, s), c)
  {
    assert CallShape(w.calls[c]);
  }

  /** The step that answers a call answers it truthfully. */
  lemma AnswersTruthfully(w: World, s: Step, c: nat)
    requires CallsInv(w) && GuardInv(w) && PoolInv(w) && Enabled(w, s)
    requires c in w.calls && !w.calls[c].phase.Replied? && Apply(w, s).calls[c].phase.Replied?
    ensures Truthful(Apply(w, s), c)
  {
    assert CallShape(w.calls[c]);
    if Environmental(s) {
      EnvironmentLeavesCalls(w, s);
      assert false;
    } else if s.ClaimNonce? {
      CallMoves(w, s);
      DuplicateIsTruthful(w, c);
    } else if s.ReceiptSeen? || s.ReceiptTimeout? {
      ReceiptIsTruthful(w, s);
    } else {
      EarlyAnswerIsTruthful(w, s, c);
    }
  }

  lemma RepliesKept(w: World, s: Step)
    requires CallsInv(w) && GuardInv(w) && PoolInv(w) && ReplyInv(w) && Enabled(w, s)
    ensures ReplyInv(Apply(w, s))
  {
    var w' := Apply(w, s);
    forall c | c in w'.calls && w'.calls[c].phase.Replied? ensures Truthful(w', c) {
      assert c in w.calls;
      if w.calls[c].phase.Replied? {
        TruthfulStays(w, s, c);
      } else {
        AnswersTruthfully(w, s, c);
      }
    }
  }

  lemma InvKept(ledger: Ledger, w: World, s: Step)
    requires Inv(ledger, w) && Enabled(w, s)
    ensures Inv(ledger, Apply(w, s))
  {
    CallsKept(w, s);
    GuardKept(w, s);
    PoolKept(w, s);
    LedgerKept(ledger, w, s);
    ReceiptKept(w, s);
    RepliesKept(w, s);
  }

  /** Every run of the system keeps the invariants. */
  lemma {:induction false} EveryRunKeepsInv(ledger: Ledger, steps: seq<Step>)
    requires After(ledger, steps).Some?
    ensures Inv(ledger, After(ledger, steps).value)
  {
    if steps == [] {
      assert SpentPairs([]) == {};
    } else {
      EveryRunKeepsInv(ledger, steps[..|steps| - 1]);
      InvKept(ledger, After(ledger, steps[..|steps| - 1]).value, steps[|steps| - 1]);
    }
  }
}
