/** The promises of the settlement protocol, over every run. */
module SettlementTheorems {
  import opened Wrappers
  import opened Token
  import opened Wire
  import opened Settle
  import opened Settlement
  import opened SettlementSafety
  import opened FacilitatorClient
  import opened Json

  /** Over every interleaving, restart, retry and leak, an (authorizer, nonce)
      pair moves funds at most once, never if it was used before, what moved is
      the calldata of a verified call, and the total balance is conserved. */
  lemma AtMostOneTransfer(ledger: Ledger, steps: seq<Step>, w: World)
    requires After(ledger, steps) == Some(w)
    ensures forall j, k :: 0 <= j < k < |w.log| ==> UsedPair(w.log[j].authorization) != UsedPair(w.log[k].authorization)
    ensures forall k :: 0 <= k < |w.log| ==> UsedPair(w.log[k].authorization) !in ledger.used
    ensures w.ledger.used == ledger.used + SpentPairs(w.log)
    ensures forall k :: 0 <= k < |w.log| && w.log[k].via.Some? ==>
              exists c :: c in w.calls && w.calls[c].sent == w.log[k].via && w.calls[c].calldata == w.log[k].authorization
    ensures Total(w.ledger.balances) == Total(ledger.balances)
  {
    EveryRunKeepsInv(ledger, steps);
    forall k | 0 <= k < |w.log| && w.log[k].via.Some?
      ensures exists c :: c in w.calls && w.calls[c].sent == w.log[k].via && w.calls[c].calldata == w.log[k].authorization
    {
      var c :| c in w.calls && w.calls[c].sent == Some(w.log[k].via.value);
    }
  }

  /** What a transfer does to one account, the self-transfer included. */
  function Shift(from: nat, to: nat, value: nat, account: nat): int {
    (if account == to then value else 0) - (if account == from then value else 0)
  }

  /** One mined settlement moves exactly the authorized amount, from the
      authorizer to the payee, and touches no other account. */
  lemma MiningMovesExactly(w: World, h: string, now: nat, account: nat)
    requires Enabled(w, Mine(h, now))
    ensures Balance(Apply(w, Mine(h, now)).ledger.balances, account)
         == Balance(w.ledger.balances, account) + Shift(w.wire[h].from, w.wire[h].to, w.wire[h].value, account)
  {
    MoveConserves(w.ledger.balances, w.wire[h].from, w.wire[h].to, w.wire[h].value);
  }

  /** What the executed authorizations brought an account, less what they took. */
  function Settled(log: seq<Landed>, account: nat): int {
    if log == [] then 0
    else
      var a := log[|log| - 1].authorization;
      Settled(log[..|log| - 1], account) + Shift(a.from, a.to, a.value, account)
  }

  /** The same for the transfers of strangers. */
  function Strangers(steps: seq<Step>, account: nat): int {
    if steps == [] then 0
    else
      var last := steps[|steps| - 1];
      Strangers(steps[..|steps| - 1], account)
      + if last.ForeignMove? then Shift(last.from, last.to, last.value, account) else 0
  }

  /** Accounting: over every run each account holds what it began with, changed
      by exactly the authorizations in the log and the strangers' transfers. */
  lemma {:induction false} BalancesAreTheLog(ledger: Ledger, steps: seq<Step>, w: World, account: nat)
    requires After(ledger, steps) == Some(w)
    ensures Balance(w.ledger.balances, account)
         == Balance(ledger.balances, account) + Settled(w.log, account) + Strangers(steps, account)
  {
    if steps != [] {
      var shorter, last := steps[..|steps| - 1], steps[|steps| - 1];
      var before := After(ledger, shorter).value;
      BalancesAreTheLog(ledger, shorter, before, account);
      StepShifts(before, last, account);
    }
  }

  lemma StepShifts(w: World, s: Step, account: nat)
    requires Enabled(w, s)
    ensures Balance(Apply(w, s).ledger.balances, account) - Settled(Apply(w, s).log, account)
         == Balance(w.ledger.balances, account) - Settled(w.log, account)
            + if s.ForeignMove? then Shift(s.from, s.to, s.value, account) else 0
  {
    match s
    case Mine(h, now) =>
      MiningMovesExactly(w, h, now, account);
      SettledExtends(w.log, Landed(w.wire[h], Some(h)), account);
    case ForeignSettle(a, now) =>
      MoveConserves(w.ledger.balances, a.from, a.to, a.value);
      SettledExtends(w.log, Landed(a, None), account);
    case ForeignMove(from, to, value) =>
      MoveConserves(w.ledger.balances, from, to, value);
    case _ =>
      OthersMoveNothing(w, s);
  }

  lemma SettledExtends(log: seq<Landed>, landed: Landed, account: nat)
    ensures var a := landed.authorization;
      Settled(log + [landed], account) == Settled(log, account) + Shift(a.from, a.to, a.value, account)
  {
    assert (log + [landed])[..|log|] == log;
  }

  lemma OthersMoveNothing(w: World, s: Step)
    requires Enabled(w, s) && !s.Mine? && !s.ForeignSettle? && !s.ForeignMove?
    ensures Apply(w, s).ledger == w.ledger && Apply(w, s).log == w.log
  {
  }

  /** In one process a key is in flight exactly when one unique call owns it, and
      done exactly when one unique call's send returned the recorded hash. */
  lemma GuardHasOneOwner(ledger: Ledger, steps: seq<Step>, w: World, i: nat, nonce: string)
    requires After(ledger, steps) == Some(w) && i in w.guards
    ensures (nonce in w.guards[i] && w.guards[i][nonce].Inflight?) <==> exists c :: OwnedBy(w, c, i, nonce)
    ensures forall c, d :: OwnedBy(w, c, i, nonce) && OwnedBy(w, d, i, nonce) ==> c == d
    ensures forall h :: (nonce in w.guards[i] && w.guards[i][nonce] == Done(h)) <==> exists c :: BroadcastBy(w, c, i, nonce, h)
    ensures forall c, d, h, h' :: BroadcastBy(w, c, i, nonce, h) && BroadcastBy(w, d, i, nonce, h') ==> c == d && h == h'
  {
    EveryRunKeepsInv(ledger, steps);
  }

  lemma OthersReleaseNothing(w: World, s: Step)
    requires Enabled(w, s) && !s.SendReturns? && !s.Throws?
    ensures var w' := Apply(w, s);
      forall i, nonce :: i in w.guards && nonce in w.guards[i] ==>
        i in w'.guards && nonce in w'.guards[i] && w'.guards[i][nonce] == w.guards[i][nonce]
  {
  }

  lemma OwnersKeyIsInflight(w: World, c: nat, i: nat, nonce: string)
    requires GuardInv(w) && OwnedBy(w, c, i, nonce) && i in w.guards && nonce in w.guards[i]
    ensures w.guards[i][nonce] == Inflight
  {
  }

  lemma OtherKeysStay(w: World, s: Step, i: nat, nonce: string)
    requires Enabled(w, s) && (s.SendReturns? || s.Throws?) && !AtKey(w.calls[s.call], i, nonce)
    requires i in w.guards && nonce in w.guards[i]
    ensures var w' := Apply(w, s); i in w'.guards && nonce in w'.guards[i] && w'.guards[i][nonce] == w.guards[i][nonce]
  {
  }

  lemma DoneStays(ledger: Ledger, w: World, s: Step, i: nat, nonce: string)
    requires Inv(ledger, w) && Enabled(w, s)
    requires i in w.guards && nonce in w.guards[i] && w.guards[i][nonce].Done?
    ensures var w' := Apply(w, s); i in w'.guards && nonce in w'.guards[i] && w'.guards[i][nonce] == w.guards[i][nonce]
  {
    if s.SendReturns? || s.Throws? {
      if AtKey(w.calls[s.call], i, nonce) {
        OwnersKeyIsInflight(w, s.call, i, nonce);
        assert false;
      }
      OtherKeysStay(w, s, i, nonce);
    } else {
      OthersReleaseNothing(w, s);
    }
  }

  /** Once done, a key keeps its hash for the rest of the run. */
  lemma {:induction false} DoneIsPermanent(ledger: Ledger, steps: seq<Step>, n: nat, early: World, w: World, i: nat, nonce: string)
    requires n <= |steps| && After(ledger, steps[..n]) == Some(early) && After(ledger, steps) == Some(w)
    requires i in early.guards && nonce in early.guards[i] && early.guards[i][nonce].Done?
    ensures i in w.guards && nonce in w.guards[i] && w.guards[i][nonce] == early.guards[i][nonce]
    decreases |steps|
  {
    if n == |steps| {
      assert steps[..n] == steps;
    } else {
      var shorter := steps[..|steps| - 1];
      assert shorter[..n] == steps[..n];
      DoneIsPermanent(ledger, shorter, n, early, After(ledger, shorter).value, i, nonce);
      EveryRunKeepsInv(ledger, shorter);
      DoneStays(ledger, After(ledger, shorter).value, steps[|steps| - 1], i, nonce);
    }
  }

  /** Every reply ever given tells the truth about its broadcast. */
  lemma RepliesTellTheTruth(ledger: Ledger, steps: seq<Step>, w: World, c: nat)
    requires After(ledger, steps) == Some(w) && c in w.calls && w.calls[c].phase.Replied?
    ensures Truthful(w, c)
  {
    EveryRunKeepsInv(ledger, steps);
  }

  /** A 409 names a transaction exactly when the key was done, and then it is
      the hash the unique earlier broadcast returned. */
  lemma DuplicateNamesTheBroadcast(ledger: Ledger, steps: seq<Step>, w: World, c: nat)
    requires After(ledger, steps) == Some(w) && Enabled(w, ClaimNonce(c))
    requires var i, nonce := w.calls[c].instance, w.calls[c].nonce; nonce in w.guards[i]
    ensures var i, nonce := w.calls[c].instance, w.calls[c].nonce;
      var w' := Apply(w, ClaimNonce(c)); var r := w'.calls[c].phase.reply;
      && r.status == 409 && r.body.success == Some(false)
      && (NamesTransaction(r) <==> w.guards[i][nonce].Done?)
      && (NamesTransaction(r) ==> exists d :: d != c && BroadcastBy(w, d, i, nonce, r.body.transaction.value))
      && (!NamesTransaction(r) ==> exists d :: d != c && OwnedBy(w, d, i, nonce))
  {
    EveryRunKeepsInv(ledger, steps);
    var i, nonce := w.calls[c].instance, w.calls[c].nonce;
    if w.guards[i][nonce].Done? {
      var d :| BroadcastBy(w, d, i, nonce, w.guards[i][nonce].txHash);
      assert d != c;
    } else {
      var d :| OwnedBy(w, d, i, nonce);
      assert d != c;
    }
  }

  // ---------------------------------------------------------------------
  // What the client may conclude
  // ---------------------------------------------------------------------

  /** SUBMITTED means paid: the returned hash is a landed transfer of the calldata. */
  lemma SubmittedMeansLanded(ledger: Ledger, steps: seq<Step>, w: World, c: nat, h: string)
    requires After(ledger, steps) == Some(w) && c in w.calls && w.calls[c].phase.Replied?
    requires Classify(Received(w.calls[c].phase.reply)) == Submitted(Str(h))
    ensures h != "" && LandedVia(w, h, w.calls[c].calldata) && UsedPair(w.calls[c].calldata) in w.ledger.used
  {
    EveryRunKeepsInv(ledger, steps);
    ClassifiesReply(w.calls[c].phase.reply);
    assert Truthful(w, c);
    assert w.calls[c].sent == Some(h);
    assert LandedVia(w, h, w.wire[h]);
    var k :| 0 <= k < |w.log| && w.log[k] == Landed(w.wire[h], Some(h));
    assert UsedPair(w.log[k].authorization) in SpentPairs(w.log);
  }

  /** The send of call `c` threw after its request had left. */
  ghost predicate ThrewAfterDeparture(ledger: Ledger, steps: seq<Step>, c: nat) {
    exists n :: 0 <= n < |steps| && LeakAt(ledger, steps, c, n)
  }

  ghost predicate LeakAt(ledger: Ledger, steps: seq<Step>, c: nat, n: nat)
    requires n < |steps|
  {
    steps[n].Throws? && steps[n].call == c && After(ledger, steps[..n]).Some?
    && c in After(ledger, steps[..n]).value.calls && After(ledger, steps[..n]).value.calls[c].phase.Sending?
  }

  predicate Leaked(call: Call) {
    call.phase.Replied? && call.sent.Some? && !call.returned
  }

  lemma LeakStep(w: World, s: Step, c: nat)
    requires CallsInv(w) && Enabled(w, s) && c in Apply(w, s).calls
    ensures Leaked(Apply(w, s).calls[c]) <==>
              c in w.calls && (Leaked(w.calls[c]) || (s.Throws? && s.call == c && w.calls[c].phase.Sending?))
  {
    if Environmental(s) {
      EnvironmentLeavesCalls(w, s);
    } else {
      CallMoves(w, s);
      if c == s.call {
        OwnLeakStep(w, s);
      }
    }
  }

  lemma OwnLeakStep(w: World, s: Step)
    requires CallsInv(w) && Enabled(w, s) && !Environmental(s)
    ensures Leaked(Apply(w, s).calls[s.call]) <==>
              s.call in w.calls && (Leaked(w.calls[s.call]) || (s.Throws? && w.calls[s.call].phase.Sending?))
  {
    assert s.call in w.calls ==> CallShape(w.calls[s.call]);
  }

  /** A finished call whose hash never came back left a transaction on the wire
      exactly when its send threw after departing. */
  lemma {:induction false} LeaksComeFromThrows(ledger: Ledger, steps: seq<Step>, w: World, c: nat)
    requires After(ledger, steps) == Some(w)
    ensures ThrewAfterDeparture(ledger, steps, c) <==> (c in w.calls && Leaked(w.calls[c]))
  {
    if steps != [] {
      var shorter, last := steps[..|steps| - 1], steps[|steps| - 1];
      var before := After(ledger, shorter).value;
      EveryRunKeepsInv(ledger, shorter);
      LeaksComeFromThrows(ledger, shorter, before, c);
      LeaksExtend(ledger, steps, c);
      CallsAreKept(before, last);
      if c in w.calls {
        LeakStep(before, last, c);
      }
    }
  }

  lemma CallsAreKept(w: World, s: Step)
    requires Enabled(w, s)
    ensures w.calls.Keys <= Apply(w, s).calls.Keys
  {
  }

  lemma LeaksExtend(ledger: Ledger, steps: seq<Step>, c: nat)
    requires steps != []
    ensures ThrewAfterDeparture(ledger, steps, c) <==>
              (ThrewAfterDeparture(ledger, steps[..|steps| - 1], c) || LeakAt(ledger, steps, c, |steps| - 1))
  {
    var shorter := steps[..|steps| - 1];
    forall n | 0 <= n < |shorter| ensures LeakAt(ledger, steps, c, n) <==> LeakAt(ledger, shorter, c, n) {
      assert steps[..n] == shorter[..n];
    }
  }

  /** The transaction moved funds. */
  ghost predicate PaidVia(w: World, h: string) {
    exists k :: 0 <= k < |w.log| && w.log[k].via == Some(h)
  }

  /** The authorization may still be executed: it is unused, the token holds the
      amount, and an instant of its window is not past. */
  ghost predicate StillExecutable(w: World, a: Authorization) {
    && UsedPair(a) !in w.ledger.used && a.value <= Total(w.ledger.balances)
    && exists t :: w.clock <= t && InWindow(a, t)
  }

  predicate InWindow(a: Authorization, t: nat) {
    a.validAfter < t < a.validBefore
  }

  /** The call's transaction has moved funds, or is unmined and executable. */
  ghost predicate MayMove(w: World, c: nat)
    requires c in w.calls
  {
    var call := w.calls[c];
    call.sent.Some?
    && (PaidVia(w, call.sent.value) || (call.sent.value !in w.receipts && StillExecutable(w, call.calldata)))
  }

  /** In no continuation of the run does the call's transaction move funds. */
  ghost predicate NeverPays(ledger: Ledger, steps: seq<Step>, c: nat) {
    forall more :: After(ledger, steps + more).Some? ==> !PaidBy(After(ledger, steps + more).value, c)
  }

  ghost predicate PaidBy(w: World, c: nat) {
    c in w.calls && w.calls[c].sent.Some? && PaidVia(w, w.calls[c].sent.value)
  }

  /** The transaction has not moved funds and no longer can. */
  ghost predicate Dead(w: World, h: string, a: Authorization) {
    && h in w.wire && w.wire[h] == a
    && !PaidVia(w, h)
    && (h in w.receipts || !StillExecutable(w, a))
  }

  lemma DeadIsNotMined(w: World, s: Step, h: string, a: Authorization)
    requires Enabled(w, s) && Dead(w, h, a)
    ensures !(s.Mine? && s.txHash == h)
  {
    if s.Mine? && s.txHash == h {
      BalanceWithinTotal(w.ledger.balances, a.from);
      assert InWindow(a, s.now);
      assert false;
    }
  }

  lemma DeadStays(ledger: Ledger, w: World, s: Step, h: string, a: Authorization)
    requires Inv(ledger, w) && Enabled(w, s) && Dead(w, h, a)
    ensures Dead(Apply(w, s), h, a)
  {
    LedgerKept(ledger, w, s);
    LedgerOnlyGrows(w, s);
    DeadIsNotMined(w, s, h, a);
    LogKeepsOut(w, s, h);
  }

  lemma LedgerOnlyGrows(w: World, s: Step)
    requires Enabled(w, s)
    ensures w.clock <= Apply(w, s).clock && w.ledger.used <= Apply(w, s).ledger.used && w.receipts.Keys <= Apply(w, s).receipts.Keys
    ensures forall h :: h in w.wire ==> h in Apply(w, s).wire && Apply(w, s).wire[h] == w.wire[h]
  {
  }

  lemma LogKeepsOut(w: World, s: Step, h: string)
    requires Enabled(w, s) && !PaidVia(w, h) && !(s.Mine? && s.txHash == h)
    ensures !PaidVia(Apply(w, s), h)
  {
  }

  lemma BalanceWithinTotal(balances: map<nat, nat>, account: nat)
    ensures Balance(balances, account) <= Total(balances)
  {
    if account in balances {
      TotalSplit(balances, account);
    }
  }

  /** A finished call whose transaction is dead, or that sent none, never pays. */
  lemma {:induction false} DeadNeverPays(ledger: Ledger, steps: seq<Step>, c: nat, more: seq<Step>)
    requires After(ledger, steps).Some? && c in After(ledger, steps).value.calls
    requires var w := After(ledger, steps).value;
      w.calls[c].phase.Replied? && (w.calls[c].sent.Some? ==> Dead(w, w.calls[c].sent.value, w.calls[c].calldata))
    requires After(ledger, steps + more).Some?
    ensures var w, w' := After(ledger, steps).value, After(ledger, steps + more).value;
      w.calls[c].sent.Some? ==> Dead(w', w.calls[c].sent.value, w.calls[c].calldata)
  {
    if more == [] {
      assert steps + more == steps;
    } else {
      var init, last := more[..|more| - 1], more[|more| - 1];
      assert (steps + more)[..|steps + more| - 1] == steps + init;
      DeadNeverPays(ledger, steps, c, init);
      EveryRunKeepsInv(ledger, steps + init);
      var w, before := After(ledger, steps).value, After(ledger, steps + init).value;
      if w.calls[c].sent.Some? {
        DeadStays(ledger, before, last, w.calls[c].sent.value, w.calls[c].calldata);
      }
    }
  }

  // -- paying a transaction that may move --------------------------------

  lemma Extend(ledger: Ledger, steps: seq<Step>, w: World, s: Step)
    requires After(ledger, steps) == Some(w) && Enabled(w, s)
    ensures After(ledger, steps + [s]) == Some(Apply(w, s))
  {
    assert (steps + [s])[..|steps|] == steps;
  }

  lemma {:induction false} SomebodyHolds(balances: map<nat, nat>) returns (account: nat)
    requires Total(balances) > 0
    ensures Balance(balances, account) > 0
    decreases |balances|
  {
    account :| account in balances;
    TotalSplit(balances, account);
    if balances[account] == 0 {
      var rest := balances - {account};
      account := SomebodyHolds(rest);
    }
  }

  /** Whatever the token holds can be brought to one account. */
  lemma {:induction false} Fund(ledger: Ledger, steps: seq<Step>, w: World, account: nat, value: nat)
    returns (more: seq<Step>, w': World)
    requires After(ledger, steps) == Some(w) && value <= Total(w.ledger.balances)
    ensures After(ledger, steps + more) == Some(w') && value <= Balance(w'.ledger.balances, account)
    ensures w' == w.(ledger := w'.ledger) && w'.ledger.used == w.ledger.used
    decreases value - Balance(w.ledger.balances, account)
  {
    more, w' := [], w;
    assert steps + more == steps;
    if Balance(w.ledger.balances, account) < value {
      var others := w.ledger.balances - {account};
      if account in w.ledger.balances {
        TotalSplit(w.ledger.balances, account);
      } else {
        assert others == w.ledger.balances;
      }
      var holder := SomebodyHolds(others);
      var move := ForeignMove(holder, account, others[holder]);
      Extend(ledger, steps, w, move);
      MoveConserves(w.ledger.balances, holder, account, others[holder]);
      var rest;
      rest, w' := Fund(ledger, steps + [move], Apply(w, move), account, value);
      more := [move] + rest;
      assert steps + more == steps + [move] + rest;
    }
  }

  lemma SentIsOnTheWire(ledger: Ledger, steps: seq<Step>, w: World, c: nat)
    requires After(ledger, steps) == Some(w) && c in w.calls && w.calls[c].sent.Some?
    ensures w.calls[c].sent.value in w.wire && w.wire[w.calls[c].sent.value] == w.calls[c].calldata
  {
    EveryRunKeepsInv(ledger, steps);
  }

  lemma MovableCanPay(ledger: Ledger, steps: seq<Step>, w: World, c: nat) returns (more: seq<Step>)
    requires After(ledger, steps) == Some(w) && c in w.calls && MayMove(w, c)
    ensures After(ledger, steps + more).Some? && PaidBy(After(ledger, steps + more).value, c)
  {
    SentIsOnTheWire(ledger, steps, w, c);
    var h := w.calls[c].sent.value;
    if PaidVia(w, h) {
      more := [];
      assert steps + more == steps;
    } else {
      var accepting, taken := Do(ledger, steps, w, NodeAccepts(h));
      var rest, paid := FundAndMine(ledger, accepting, taken, h);
      more := [NodeAccepts(h)] + rest;
      Regroup(steps, [NodeAccepts(h)], rest);
    }
  }

  lemma {:induction false} Regroup(steps: seq<Step>, first: seq<Step>, rest: seq<Step>)
    ensures steps + (first + rest) == (steps + first) + rest
  {
  }

  lemma FundAndMine(ledger: Ledger, steps: seq<Step>, w: World, h: string) returns (more: seq<Step>, w': World)
    requires After(ledger, steps) == Some(w) && h in w.wire && h in w.pool && h !in w.receipts
    requires StillExecutable(w, w.wire[h])
    ensures After(ledger, steps + more) == Some(w') && w'.calls == w.calls && PaidVia(w', h)
  {
    var a := w.wire[h];
    var moves, funded := Fund(ledger, steps, w, a.from, a.value);
    var t :| w.clock <= t && InWindow(a, t);
    var mine := Mine(h, t);
    var longer;
    longer, w' := Do(ledger, steps + moves, funded, mine);
    more := moves + [mine];
    assert steps + more == longer;
    assert w'.log[|funded.log|].via == Some(h);
  }

  /** A rejected call's transaction that did not leave by a thrown send is dead. */
  lemma RejectedIsDeadOrLeaked(ledger: Ledger, steps: seq<Step>, w: World, c: nat)
    requires After(ledger, steps) == Some(w) && c in w.calls && w.calls[c].phase.Replied?
    requires Classify(Received(w.calls[c].phase.reply)).Rejected? && w.calls[c].sent.Some?
    requires !(ThrewAfterDeparture(ledger, steps, c) && MayMove(w, c))
    ensures Dead(w, w.calls[c].sent.value, w.calls[c].calldata)
  {
    EveryRunKeepsInv(ledger, steps);
    LeaksComeFromThrows(ledger, steps, w, c);
    ClassifiesReply(w.calls[c].phase.reply);
    assert Truthful(w, c);
  }

  /** REJECTED is final up to one named assumption: over all continuations a
      rejected call's transaction never moves funds, exactly unless its send
      threw after the request had left and the transaction may still move. */
  lemma RejectedMovesNothing(ledger: Ledger, steps: seq<Step>, w: World, c: nat)
    requires After(ledger, steps) == Some(w) && c in w.calls && w.calls[c].phase.Replied?
    requires Classify(Received(w.calls[c].phase.reply)).Rejected?
    ensures NeverPays(ledger, steps, c) <==> !(ThrewAfterDeparture(ledger, steps, c) && MayMove(w, c))
  {
    if ThrewAfterDeparture(ledger, steps, c) && MayMove(w, c) {
      var more := MovableCanPay(ledger, steps, w, c);
    } else {
      if w.calls[c].sent.Some? {
        RejectedIsDeadOrLeaked(ledger, steps, w, c);
      }
      forall more | After(ledger, steps + more).Some? ensures !PaidBy(After(ledger, steps + more).value, c) {
        DeadNeverPays(ledger, steps, c, more);
        RepliedStays(ledger, steps, w, c, more);
      }
    }
  }

  /** Once the window has closed, every REJECTED whose transaction has not moved
      funds by then is final, however the call ended. */
  lemma ExpiredRejectionIsFinal(ledger: Ledger, steps: seq<Step>, w: World, c: nat)
    requires After(ledger, steps) == Some(w) && c in w.calls && w.calls[c].phase.Replied?
    requires Classify(Received(w.calls[c].phase.reply)).Rejected?
    requires w.calls[c].calldata.validBefore <= w.clock
    ensures NeverPays(ledger, steps, c) <==> !PaidBy(w, c)
  {
    RejectedMovesNothing(ledger, steps, w, c);
    assert !exists t :: w.clock <= t && InWindow(w.calls[c].calldata, t);
    assert steps + [] == steps;
    if PaidBy(w, c) {
      assert After(ledger, steps + []).Some?;
    }
  }

  /** A finished call stays as it is. */
  lemma {:induction false} RepliedStays(ledger: Ledger, steps: seq<Step>, w: World, c: nat, more: seq<Step>)
    requires After(ledger, steps) == Some(w) && c in w.calls && w.calls[c].phase.Replied?
    requires After(ledger, steps + more).Some?
    ensures c in After(ledger, steps + more).value.calls && After(ledger, steps + more).value.calls[c] == w.calls[c]
  {
    if more == [] {
      assert steps + more == steps;
    } else {
      var init := more[..|more| - 1];
      assert (steps + more)[..|steps + more| - 1] == steps + init;
      RepliedStays(ledger, steps, w, c, init);
      EveryRunKeepsInv(ledger, steps + init);
      EvidenceStays(After(ledger, steps + init).value, more[|more| - 1], c);
    }
  }

  /** UNKNOWN is not FAILURE: while its transaction may move, a call whose send
      returned is answered SUBMITTED or UNKNOWN, and so is every duplicate. */
  lemma LiveTransactionsAreNeverRejected(ledger: Ledger, steps: seq<Step>, w: World, c: nat)
    requires After(ledger, steps) == Some(w) && c in w.calls && w.calls[c].phase.Replied?
    requires (w.calls[c].returned && !MinedAs(w, w.calls[c].sent, false)) || w.calls[c].phase.reply.status == 409
    ensures var result := Classify(Received(w.calls[c].phase.reply)); result.Submitted? || result.Unknown?
    ensures w.calls[c].phase.reply.status == 504 ==> Classify(Received(w.calls[c].phase.reply)).Unknown?
  {
    EveryRunKeepsInv(ledger, steps);
    ClassifiesReply(w.calls[c].phase.reply);
    assert Truthful(w, c);
  }

  // ---------------------------------------------------------------------
  // Where the promises stop
  // ---------------------------------------------------------------------

  /** A call that claims an unclaimed nonce: the run up to its first network request. */
  lemma RunToClaim(ledger: Ledger, nonce: string, a: Authorization) returns (steps: seq<Step>, w: World)
    requires UsedPair(a) !in ledger.used
    ensures After(ledger, steps) == Some(w)
    ensures w == World(0, map[0 := map[nonce := Inflight]], {0}, map[0 := Call(0, nonce, a, Preparing, true, None, false)],
                       map[], {}, map[], ledger, [])
  {
    steps, w := [], Genesis(ledger);
    steps, w := Do(ledger, steps, w, Boot(0));
    assert w == World(0, map[0 := map[]], {0}, map[], map[], {}, map[], ledger, []);
    steps, w := Do(ledger, steps, w, Arrive(0, 0, nonce, a));
    assert w == World(0, map[0 := map[]], {0}, map[0 := Call(0, nonce, a, Arrived, false, None, false)],
                      map[], {}, map[], ledger, []);
    steps, w := Do(ledger, steps, w, PassVerification(0));
    assert w == World(0, map[0 := map[]], {0}, map[0 := Call(0, nonce, a, Verified, false, None, false)],
                      map[], {}, map[], ledger, []);
    steps, w := Do(ledger, steps, w, ClaimNonce(0));
  }

  /** A call whose send throws after departing, before or after a node takes it. */
  lemma RunToRejection(ledger: Ledger, nonce: string, a: Authorization, late: bool) returns (steps: seq<Step>, w: World)
    requires UsedPair(a) !in ledger.used
    ensures After(ledger, steps) == Some(w) && 0 in w.calls
    ensures w.calls[0].phase == Replied(BroadcastFailedReply(false, "connection reset"))
    ensures w.calls == map[0 := w.calls[0]] && w.calls[0].instance == 0 && w.calls[0].nonce == nonce
    ensures w.alive == {0} && w.guards == map[0 := map[]]
    ensures w.calls[0].sent == Some("0x01") && w.calls[0].calldata == a && w.wire == map["0x01" := a]
    ensures w.clock == 0 && w.log == [] && w.receipts == map[] && w.ledger == ledger && w.pool == if late then {} else {"0x01"}
  {
    steps, w := RunToClaim(ledger, nonce, a);
    steps, w := Do(ledger, steps, w, SendDeparts(0, "0x01"));
    if !late {
      steps, w := Do(ledger, steps, w, NodeAccepts("0x01"));
    }
    steps, w := Do(ledger, steps, w, Throws(0, false, "connection reset"));
  }

  lemma FailedBroadcastIsRejected(detail: string)
    ensures Classify(Received(BroadcastFailedReply(false, detail))).Rejected?
  {
    ClassifiesReply(BroadcastFailedReply(false, detail));
  }

  /** The assumption is needed: for every fundable authorization there are two
      runs in which the client is told REJECTED and the money moves all the
      same, one in which a node took the transaction before the send threw and
      one in which it did so after the answer was given. */
  lemma RejectedCanStillPay(ledger: Ledger, nonce: string, a: Authorization, now: nat, late: bool)
    returns (answered: seq<Step>, rest: seq<Step>, w: World, w': World)
    requires Admissible(ledger, a, now)
    ensures After(ledger, answered) == Some(w) && 0 in w.calls && w.calls[0].phase.Replied?
    ensures Classify(Received(w.calls[0].phase.reply)).Rejected? && w.log == []
    ensures w.pool == if late then {} else {"0x01"}
    ensures After(ledger, answered + rest) == Some(w') && PaidBy(w', 0)
    ensures w'.log == [Landed(a, Some("0x01"))] && w'.calls == w.calls
  {
    answered, w := RunToRejection(ledger, nonce, a, late);
    FailedBroadcastIsRejected("connection reset");
    var taken, at := Do(ledger, answered, w, NodeAccepts("0x01"));
    var all;
    all, w' := Do(ledger, taken, at, Mine("0x01", now));
    rest := [NodeAccepts("0x01"), Mine("0x01", now)];
    assert answered + rest == all;
    assert w'.log[0].via == Some("0x01");
  }

  /** The run, one step longer. */
  lemma Do(ledger: Ledger, steps: seq<Step>, w: World, s: Step) returns (longer: seq<Step>, w': World)
    requires After(ledger, steps) == Some(w) && Enabled(w, s)
    ensures longer == steps + [s] && w' == Apply(w, s) && After(ledger, longer) == Some(w')
  {
    Extend(ledger, steps, w, s);
    longer, w' := steps + [s], Apply(w, s);
  }

  /** One process sends for one nonce text twice only if a send threw after its
      request had left: `release` then frees the key. */
  lemma SecondSendNeedsAThrow(ledger: Ledger, steps: seq<Step>, w: World, c: nat, d: nat)
    requires After(ledger, steps) == Some(w) && c in w.calls && d in w.calls && c != d
    requires w.calls[c].instance == w.calls[d].instance && w.calls[c].nonce == w.calls[d].nonce
    requires w.calls[c].sent.Some? && w.calls[d].sent.Some?
    ensures ThrewAfterDeparture(ledger, steps, c) || ThrewAfterDeparture(ledger, steps, d)
  {
    EveryRunKeepsInv(ledger, steps);
    LeaksComeFromThrows(ledger, steps, w, c);
    LeaksComeFromThrows(ledger, steps, w, d);
    SentStanding(w, c);
    SentStanding(w, d);
  }

  /** A call that sent is leaked, or holds its key as owner or as broadcaster. */
  lemma SentStanding(w: World, c: nat)
    requires CallsInv(w) && c in w.calls && w.calls[c].sent.Some?
    ensures var call := w.calls[c];
      || Leaked(call)
      || OwnedBy(w, c, call.instance, call.nonce)
      || BroadcastBy(w, c, call.instance, call.nonce, call.sent.value)
  {
    assert CallShape(w.calls[c]);
  }

  /** So two sends of one process that returned have different spellings. */
  lemma SecondBroadcastNeedsAnotherSpelling(ledger: Ledger, steps: seq<Step>, w: World, c: nat, d: nat)
    requires After(ledger, steps) == Some(w) && c in w.calls && d in w.calls && c != d
    requires w.calls[c].instance == w.calls[d].instance && w.calls[c].returned && w.calls[d].returned
    ensures w.calls[c].nonce != w.calls[d].nonce
  {
    EveryRunKeepsInv(ledger, steps);
    if w.calls[c].nonce == w.calls[d].nonce {
      SecondSendNeedsAThrow(ledger, steps, w, c, d);
      LeaksComeFromThrows(ledger, steps, w, c);
      LeaksComeFromThrows(ledger, steps, w, d);
    }
  }

  /** And a throw is enough: under one spelling, a process whose first send threw
      after a node took it broadcasts the same authorization again. */
  lemma OneSpellingBroadcastsTwice(ledger: Ledger, a: Authorization, nonce: string) returns (steps: seq<Step>, w: World)
    requires UsedPair(a) !in ledger.used
    ensures After(ledger, steps) == Some(w) && 0 in w.calls && 1 in w.calls
    ensures w.calls[0].instance == w.calls[1].instance && w.calls[0].nonce == w.calls[1].nonce == nonce
    ensures w.calls[0].calldata == w.calls[1].calldata == a && w.calls[1].returned
    ensures w.calls[0].sent == Some("0x01") && w.calls[1].sent == Some("0x02") && w.pool == {"0x01", "0x02"}
  {
    steps, w := RunToRejection(ledger, nonce, a, false);
    var first := w.calls[0];
    steps, w := Do(ledger, steps, w, Arrive(1, 0, nonce, a));
    steps, w := Do(ledger, steps, w, PassVerification(1));
    steps, w := Do(ledger, steps, w, ClaimNonce(1));
    assert w.calls == map[0 := first, 1 := Call(0, nonce, a, Preparing, true, None, false)];
    steps, w := SendAgain(ledger, steps, w, nonce, a);
  }

  /** Call 1, which owns its nonce, sends and gets its hash. */
  lemma SendAgain(ledger: Ledger, steps: seq<Step>, w: World, nonce: string, a: Authorization) returns (longer: seq<Step>, w': World)
    requires After(ledger, steps) == Some(w) && w.alive == {0} && 0 in w.guards && w.wire == map["0x01" := a]
    requires 0 in w.calls && 1 in w.calls && w.calls[1] == Call(0, nonce, a, Preparing, true, None, false)
    ensures After(ledger, longer) == Some(w') && w'.pool == w.pool + {"0x02"}
    ensures w'.calls == w.calls[1 := Call(0, nonce, a, Awaiting("0x02"), true, Some("0x02"), true)]
  {
    longer, w' := Do(ledger, steps, w, SendDeparts(1, "0x02"));
    longer, w' := Do(ledger, longer, w', NodeAccepts("0x02"));
    longer, w' := Do(ledger, longer, w', SendReturns(1));
  }

  /** With two spellings it does: one process, one authorization, two broadcasts. */
  lemma TwoSpellingsBroadcastTwice(ledger: Ledger, a: Authorization, spelling: string, other: string)
    returns (steps: seq<Step>, w: World)
    requires UsedPair(a) !in ledger.used && spelling != other
    ensures After(ledger, steps) == Some(w) && 0 in w.calls && 1 in w.calls
    ensures w.calls[0].instance == w.calls[1].instance && w.calls[0].calldata == w.calls[1].calldata == a
    ensures w.calls[0].nonce == spelling && w.calls[1].nonce == other
    ensures w.calls[0].returned && w.calls[1].returned && w.calls[0].sent != w.calls[1].sent
  {
    steps, w := RunToClaim(ledger, spelling, a);
    steps, w := Do(ledger, steps, w, SendDeparts(0, "0x01"));
    steps, w := Do(ledger, steps, w, NodeAccepts("0x01"));
    steps, w := Do(ledger, steps, w, SendReturns(0));
    steps, w := Do(ledger, steps, w, Arrive(1, 0, other, a));
    steps, w := Do(ledger, steps, w, PassVerification(1));
    steps, w := Do(ledger, steps, w, ClaimNonce(1));
    steps, w := Do(ledger, steps, w, SendDeparts(1, "0x02"));
    steps, w := Do(ledger, steps, w, NodeAccepts("0x02"));
    steps, w := Do(ledger, steps, w, SendReturns(1));
  }
}
