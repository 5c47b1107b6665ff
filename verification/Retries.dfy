/** When a request that arrives later makes a facilitator send once more. */
module Retries {
  import opened Wrappers
  import opened Token
  import opened Settle
  import opened Settlement
  import opened SettlementSafety
  import opened SettlementTheorems

  /** A call that was not there in `w` has sent this authorization for process `i` under this nonce text. */
  predicate SentBy(w: World, later: World, c: nat, i: nat, nonce: string, a: Authorization) {
    c !in w.calls && c in later.calls && AtKey(later.calls[c], i, nonce) && later.calls[c].calldata == a && later.calls[c].sent.Some?
  }

  /** In some continuation a later request has process `i` send the authorization. */
  ghost predicate CanSendAnew(ledger: Ledger, steps: seq<Step>, w: World, i: nat, nonce: string, a: Authorization) {
    exists more, c :: After(ledger, steps + more).Some? && SentBy(w, After(ledger, steps + more).value, c, i, nonce, a)
  }

  predicate Down(w: World, i: nat) {
    i in w.guards && i !in w.alive
  }

  predicate IsDone(w: World, i: nat, nonce: string) {
    i in w.guards && nonce in w.guards[i] && w.guards[i][nonce].Done?
  }

  predicate Blocked(w: World, i: nat, nonce: string, a: Authorization) {
    Down(w, i) || IsDone(w, i, nonce) || UsedPair(a) in w.ledger.used
  }

  // -- blocked for good ---------------------------------------------------

  lemma DownStays(w: World, s: Step, i: nat)
    requires Enabled(w, s) && Down(w, i)
    ensures Down(Apply(w, s), i)
  {
  }

  lemma UsedStays(w: World, s: Step, pair: (nat, nat))
    requires Enabled(w, s) && pair in w.ledger.used
    ensures pair in Apply(w, s).ledger.used
  {
  }

  /** A call that owns nothing and has sent nothing, and did not pass verification if `used`. */
  predicate IsQuiet(call: Call, used: bool) {
    call.sent.None? && !Owns(call) && (used ==> !call.phase.Verified?)
  }

  /** Since `start` no request that arrived has got anywhere with the authorization. */
  ghost predicate Quiet(start: World, w: World, i: nat, nonce: string, a: Authorization) {
    forall c :: c in w.calls && c !in start.calls && AtKey(w.calls[c], i, nonce) && w.calls[c].calldata == a
                ==> IsQuiet(w.calls[c], UsedPair(a) in start.ledger.used)
  }

  /** A quiet call that moves stays quiet: a down process serves nobody, a done key
      is not claimed, a used authorization fails verification. */
  lemma QuietCallStays(w: World, s: Step, used: bool)
    requires Enabled(w, s) && !Environmental(s) && !s.Arrive? && s.call in w.calls
    requires var call := w.calls[s.call];
      && IsQuiet(call, used) && (used ==> UsedPair(call.calldata) in w.ledger.used)
      && (used || Down(w, call.instance) || IsDone(w, call.instance, call.nonce))
    ensures s.call in Apply(w, s).calls && IsQuiet(Apply(w, s).calls[s.call], used)
  {
  }

  lemma CallKeepsTerms(w: World, s: Step, c: nat)
    requires Enabled(w, s) && c in w.calls
    ensures c in Apply(w, s).calls
    ensures var was, now := w.calls[c], Apply(w, s).calls[c];
      was.instance == now.instance && was.nonce == now.nonce && was.calldata == now.calldata
    ensures Environmental(s) || s.call != c ==> Apply(w, s).calls[c] == w.calls[c]
  {
  }

  lemma QuietStays(start: World, w: World, s: Step, i: nat, nonce: string, a: Authorization)
    requires Quiet(start, w, i, nonce, a) && start.calls.Keys <= w.calls.Keys && Enabled(w, s)
    requires UsedPair(a) in start.ledger.used ==> UsedPair(a) in w.ledger.used
    requires UsedPair(a) in start.ledger.used || Down(w, i) || IsDone(w, i, nonce)
    ensures Quiet(start, Apply(w, s), i, nonce, a) && start.calls.Keys <= Apply(w, s).calls.Keys
  {
    var w', used := Apply(w, s), UsedPair(a) in start.ledger.used;
    forall c | c in w'.calls && c !in start.calls && AtKey(w'.calls[c], i, nonce) && w'.calls[c].calldata == a
      ensures IsQuiet(w'.calls[c], used)
    {
      if c in w.calls {
        CallKeepsTerms(w, s, c);
        if !Environmental(s) && s.call == c {
          QuietCallStays(w, s, used);
        }
      } else {
        NewCallsArrive(w, s, c);
      }
    }
    forall c | c in start.calls ensures c in w'.calls {
      CallKeepsTerms(w, s, c);
    }
  }

  lemma NewCallsArrive(w: World, s: Step, c: nat)
    requires Enabled(w, s) && c in Apply(w, s).calls && c !in w.calls
    ensures Apply(w, s).calls[c].phase.Arrived? && Apply(w, s).calls[c].sent.None?
  {
  }

  /** The process is down, the key done or the authorization used: so it stays, and nothing new is sent. */
  lemma {:induction false} BlockedStaysQuiet(ledger: Ledger, steps: seq<Step>, w: World, more: seq<Step>, i: nat, nonce: string, a: Authorization)
    requires After(ledger, steps) == Some(w) && Blocked(w, i, nonce, a) && After(ledger, steps + more).Some?
    ensures var later := After(ledger, steps + more).value;
      && Quiet(w, later, i, nonce, a) && w.calls.Keys <= later.calls.Keys
      && (Down(w, i) ==> Down(later, i)) && (IsDone(w, i, nonce) ==> IsDone(later, i, nonce))
      && (UsedPair(a) in w.ledger.used ==> UsedPair(a) in later.ledger.used)
  {
    if more == [] {
      assert steps + more == steps;
    } else {
      var init, last := more[..|more| - 1], more[|more| - 1];
      assert (steps + more)[..|steps + more| - 1] == steps + init;
      BlockedStaysQuiet(ledger, steps, w, init, i, nonce, a);
      BlockedStep(ledger, steps + init, After(ledger, steps + init).value, last, w, i, nonce, a);
    }
  }

  lemma BlockedStep(ledger: Ledger, steps: seq<Step>, w: World, s: Step, start: World, i: nat, nonce: string, a: Authorization)
    requires After(ledger, steps) == Some(w) && Enabled(w, s)
    requires Quiet(start, w, i, nonce, a) && start.calls.Keys <= w.calls.Keys
    requires Blocked(start, i, nonce, a)
    requires Down(start, i) ==> Down(w, i)
    requires IsDone(start, i, nonce) ==> IsDone(w, i, nonce)
    requires UsedPair(a) in start.ledger.used ==> UsedPair(a) in w.ledger.used
    ensures Quiet(start, Apply(w, s), i, nonce, a) && start.calls.Keys <= Apply(w, s).calls.Keys
    ensures Down(start, i) ==> Down(Apply(w, s), i)
    ensures IsDone(start, i, nonce) ==> IsDone(Apply(w, s), i, nonce)
    ensures UsedPair(a) in start.ledger.used ==> UsedPair(a) in Apply(w, s).ledger.used
  {
    EveryRunKeepsInv(ledger, steps);
    QuietStays(start, w, s, i, nonce, a);
    if Down(w, i) {
      DownStays(w, s, i);
    }
    if IsDone(w, i, nonce) {
      DoneStays(ledger, w, s, i, nonce);
    }
    if UsedPair(a) in w.ledger.used {
      UsedStays(w, s, UsedPair(a));
    }
  }

  // -- a run that sends ---------------------------------------------------

  lemma {:induction false} UnusedNumber(taken: set<nat>) returns (n: nat)
    ensures forall k :: k in taken ==> k < n
  {
    if taken == {} {
      n := 0;
    } else {
      var k :| k in taken;
      var rest := UnusedNumber(taken - {k});
      n := if k < rest then rest else k + 1;
      forall j | j in taken ensures j < n {
        assert j == k || j in taken - {k};
      }
    }
  }

  lemma UnusedText(taken: set<string>) returns (h: string)
    ensures h !in taken && h != ""
  {
    var lengths := set t | t in taken :: |t|;
    var n := UnusedNumber(lengths);
    h := seq(n + 1, _ => '0');
    assert h in taken ==> |h| in lengths;
  }

  /** The process runs and the key is free. */
  predicate Open(w: World, i: nat, nonce: string) {
    i in w.alive && i in w.guards && nonce !in w.guards[i]
  }

  /** A key in flight is freed by a throw of its owner. */
  lemma FreeTheKey(ledger: Ledger, steps: seq<Step>, w: World, i: nat, nonce: string) returns (more: seq<Step>, freed: World)
    requires After(ledger, steps) == Some(w) && !Down(w, i) && !IsDone(w, i, nonce)
    ensures After(ledger, steps + more) == Some(freed) && Open(freed, i, nonce)
    ensures freed.ledger == w.ledger && freed.calls.Keys == w.calls.Keys
  {
    more, freed := [], w;
    assert steps + more == steps;
    EveryRunKeepsInv(ledger, steps);
    var longer;
    if i !in w.guards {
      longer, freed := Do(ledger, steps, w, Boot(i));
      more := [Boot(i)];
    } else if nonce in w.guards[i] {
      var c :| OwnedBy(w, c, i, nonce);
      longer, freed := Do(ledger, steps, w, Throws(c, false, "connection reset"));
      more := [Throws(c, false, "connection reset")];
    }
  }

  /** A fresh request on a free key is verified, claims it and sends. */
  lemma ServeARequest(ledger: Ledger, steps: seq<Step>, w: World, i: nat, nonce: string, a: Authorization)
    returns (c: nat, more: seq<Step>, sent: World)
    requires After(ledger, steps) == Some(w) && Open(w, i, nonce) && UsedPair(a) !in w.ledger.used
    ensures c !in w.calls && After(ledger, steps + more) == Some(sent) && SentBy(w, sent, c, i, nonce, a)
  {
    c := UnusedNumber(w.calls.Keys);
    var h := UnusedText(w.wire.Keys);
    var longer;
    longer, sent := Do(ledger, steps, w, Arrive(c, i, nonce, a));
    longer, sent := Do(ledger, longer, sent, PassVerification(c));
    longer, sent := Do(ledger, longer, sent, ClaimNonce(c));
    longer, sent := Do(ledger, longer, sent, SendDeparts(c, h));
    more := [Arrive(c, i, nonce, a), PassVerification(c), ClaimNonce(c), SendDeparts(c, h)];
    assert steps + more == longer;
  }

  lemma BlockedNeverSends(ledger: Ledger, steps: seq<Step>, w: World, i: nat, nonce: string, a: Authorization)
    requires After(ledger, steps) == Some(w) && Blocked(w, i, nonce, a)
    ensures !CanSendAnew(ledger, steps, w, i, nonce, a)
  {
    forall more, c | After(ledger, steps + more).Some? ensures !SentBy(w, After(ledger, steps + more).value, c, i, nonce, a) {
      BlockedStaysQuiet(ledger, steps, w, more, i, nonce, a);
    }
  }

  lemma SentInContinuation(ledger: Ledger, steps: seq<Step>, w: World, first: seq<Step>, rest: seq<Step>, sent: World,
                           c: nat, i: nat, nonce: string, a: Authorization)
    requires After(ledger, (steps + first) + rest) == Some(sent) && SentBy(w, sent, c, i, nonce, a)
    ensures CanSendAnew(ledger, steps, w, i, nonce, a)
  {
    assert (steps + first) + rest == steps + (first + rest);
  }

  lemma UnblockedCanSend(ledger: Ledger, steps: seq<Step>, w: World, i: nat, nonce: string, a: Authorization)
    requires After(ledger, steps) == Some(w) && !Blocked(w, i, nonce, a)
    ensures CanSendAnew(ledger, steps, w, i, nonce, a)
  {
    var first, freed := FreeTheKey(ledger, steps, w, i, nonce);
    var c, rest, sent := ServeARequest(ledger, steps + first, freed, i, nonce, a);
    SentInContinuation(ledger, steps, w, first, rest, sent, c, i, nonce, a);
  }

  /** When a retry makes a process send again: in every reachable state a request
      that arrives later can have it send the authorization under the nonce text
      if and only if the process did not crash, no broadcast of its own is
      recorded under that text and the chain has not seen the nonce. */
  lemma RetrySendsIff(ledger: Ledger, steps: seq<Step>, w: World, i: nat, nonce: string, a: Authorization)
    requires After(ledger, steps) == Some(w)
    ensures CanSendAnew(ledger, steps, w, i, nonce, a) <==> !Down(w, i) && !IsDone(w, i, nonce) && UsedPair(a) !in w.ledger.used
  {
    if Blocked(w, i, nonce, a) {
      BlockedNeverSends(ledger, steps, w, i, nonce, a);
    } else {
      UnblockedCanSend(ledger, steps, w, i, nonce, a);
    }
  }

  /** After a send that threw, so that the authorization was sent already, the
      same process can be made to send it once more exactly as long as it lives,
      no other call's broadcast is recorded under the text and the chain has not
      seen the nonce. */
  lemma ThrownSendIsRepeatedIff(ledger: Ledger, steps: seq<Step>, w: World, c: nat)
    requires After(ledger, steps) == Some(w) && c in w.calls && ThrewAfterDeparture(ledger, steps, c)
    ensures w.calls[c].sent.Some?
    ensures var call := w.calls[c];
      CanSendAnew(ledger, steps, w, call.instance, call.nonce, call.calldata)
      <==> call.instance in w.alive && !IsDone(w, call.instance, call.nonce) && UsedPair(call.calldata) !in w.ledger.used
  {
    EveryRunKeepsInv(ledger, steps);
    LeaksComeFromThrows(ledger, steps, w, c);
    RetrySendsIff(ledger, steps, w, w.calls[c].instance, w.calls[c].nonce, w.calls[c].calldata);
  }
}
