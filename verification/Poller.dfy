/** api-server/src/lib/event-listener.ts: the polling loop. */
module Poller {
  import opened Wrappers
  import opened ChainScan

  /** One iteration's answers: the head request, then both log requests. */
  datatype Tick = HeadThrows | Head(latest: nat, logsThrow: bool)

  /** What the loop has done: where it stands, its error count, the blocks and
      logs it handed to the handlers, and how long it slept. */
  datatype Poll = Poll(fromBlock: Option<nat>, errorAttempt: nat, handed: seq<nat>,
                       created: seq<Log>, claims: seq<Log>, slept: seq<nat>)

  const POLL_INTERVAL_MS := 4_000
  const BACKOFF_MS: seq<nat> := [1_000, 5_000, 15_000, 30_000, 60_000]

  function Backoff(attempt: nat): nat {
    if attempt < 5 then BACKOFF_MS[attempt] else BACKOFF_MS[4]
  }

  /** The blocks from `from` up to but not including `end`. */
  function Range(from: nat, end: int): seq<nat>
    decreases end - from
  {
    if from >= end then [] else [from] + Range(from + 1, end)
  }

  function All(l: Log): bool {
    true
  }

  /** The initial state of the loop. */
  const IDLE := Poll(None, 0, [], [], [], [])

  /** What the loop has established after the ticks `done`. */
  ghost predicate Follows(p: Poll, created: Chain, claims: Chain, done: seq<Tick>) {
    && (p.fromBlock.None? <==> FirstHead(done).None?)
    && (p.fromBlock.None? ==> p.handed == [] && p.created == [] && p.claims == [])
    && (p.fromBlock.Some? ==>
          && FirstHead(done).value <= p.fromBlock.value == HighWater(done)
          && p.handed == Range(FirstHead(done).value, p.fromBlock.value)
          && p.created == GetLogs(created, All, FirstHead(done).value, p.fromBlock.value as int - 1)
          && p.claims == GetLogs(claims, All, FirstHead(done).value, p.fromBlock.value as int - 1))
    && p.slept == Pauses(done) && p.errorAttempt == ErrorsSinceCleanPoll(done)
  }

  lemma CleanPollAdvances(done: seq<Tick>, latest: nat)
    requires FirstHead(done).Some? && latest >= HighWater(done)
    ensures var now := done + [Head(latest, false)];
      && FirstHead(now) == FirstHead(done) && HighWater(now) == latest + 1
      && ErrorsSinceCleanPoll(now) == 0 && Pauses(now) == Pauses(done) + [POLL_INTERVAL_MS]
  {
    assert (done + [Head(latest, false)])[..|done|] == done;
  }

  /** The logs up to the next block, then those of the poll, are the logs up to the head. */
  lemma LogsReach(chain: Chain, logs: seq<Log>, first: nat, from: nat, latest: nat)
    requires first <= from <= latest && logs == GetLogs(chain, All, first, from as int - 1)
    ensures logs + GetLogs(chain, All, from, latest) == GetLogs(chain, All, first, latest)
  {
    GetLogsSplit(chain, All, first, from as int - 1, latest);
  }

  lemma BlocksReach(handed: seq<nat>, first: nat, from: nat, latest: nat)
    requires first <= from <= latest && handed == Range(first, from)
    ensures handed + Range(from, latest + 1) == Range(first, latest + 1)
  {
    RangeSplit(first, from, latest + 1);
  }

  /** A poll with new blocks whose requests all succeed extends everything up to `latest`. */
  lemma CleanPollFollows(p: Poll, created: Chain, claims: Chain, done: seq<Tick>, latest: nat)
    requires Follows(p, created, claims, done) && p.fromBlock.Some? && latest >= p.fromBlock.value
    ensures var from := p.fromBlock.value;
      Follows(p.(created := p.created + GetLogs(created, All, from, latest),
                 claims := p.claims + GetLogs(claims, All, from, latest),
                 handed := p.handed + Range(from, latest + 1),
                 fromBlock := Some(latest + 1), errorAttempt := 0, slept := p.slept + [POLL_INTERVAL_MS]),
              created, claims, done + [Head(latest, false)])
  {
    var first, from := FirstHead(done).value, p.fromBlock.value;
    CleanPollAdvances(done, latest);
    BlocksReach(p.handed, first, from, latest);
    LogsReach(created, p.created, first, from, latest);
    LogsReach(claims, p.claims, first, from, latest);
  }

  /** Any other tick moves nothing but the sleep and the error count. */
  lemma IdleTickFollows(p: Poll, created: Chain, claims: Chain, done: seq<Tick>, tick: Tick, pause: nat, attempt: nat)
    requires Follows(p, created, claims, done) && !IsCleanPoll(done, tick)
    requires p.fromBlock.Some? || tick.HeadThrows?
    requires attempt == p.errorAttempt + (if IsError(done, tick) then 1 else 0)
    requires pause == if IsError(done, tick) then Backoff(p.errorAttempt) else POLL_INTERVAL_MS
    ensures Follows(p.(slept := p.slept + [pause], errorAttempt := attempt), created, claims, done + [tick])
  {
    assert (done + [tick])[..|done|] == done;
  }

  /** What one turn of the loop makes of it. */
  function AfterTick(p: Poll, created: Chain, claims: Chain, tick: Tick): Poll {
    if tick.HeadThrows? || (p.fromBlock.Some? && tick.latest >= p.fromBlock.value && tick.logsThrow)
    then p.(slept := p.slept + [Backoff(p.errorAttempt)], errorAttempt := p.errorAttempt + 1)
    else if p.fromBlock.None? then p.(fromBlock := Some(tick.latest), slept := p.slept + [POLL_INTERVAL_MS])
    else if tick.latest >= p.fromBlock.value
    then
      p.(created := p.created + GetLogs(created, All, p.fromBlock.value, tick.latest),
         claims := p.claims + GetLogs(claims, All, p.fromBlock.value, tick.latest),
         handed := p.handed + Range(p.fromBlock.value, tick.latest + 1),
         fromBlock := Some(tick.latest + 1), errorAttempt := 0, slept := p.slept + [POLL_INTERVAL_MS])
    else p.(slept := p.slept + [POLL_INTERVAL_MS])
  }

  /** Every turn keeps to the specification. */
  lemma TickFollows(p: Poll, created: Chain, claims: Chain, done: seq<Tick>, tick: Tick)
    requires Follows(p, created, claims, done)
    ensures Follows(AfterTick(p, created, claims, tick), created, claims, done + [tick])
  {
    if tick.HeadThrows? || (p.fromBlock.Some? && tick.latest >= p.fromBlock.value && tick.logsThrow) {
      IdleTickFollows(p, created, claims, done, tick, Backoff(p.errorAttempt), p.errorAttempt + 1);
    } else if p.fromBlock.None? {
      FirstHeadFollows(p, created, claims, done, tick);
    } else if tick.latest >= p.fromBlock.value {
      CleanPollFollows(p, created, claims, done, tick.latest);
    } else {
      IdleTickFollows(p, created, claims, done, tick, POLL_INTERVAL_MS, p.errorAttempt);
    }
  }

  method RunPoller(created: Chain, claims: Chain, script: seq<Tick>) returns (p: Poll)
    ensures p.fromBlock.None? <==> FirstHead(script).None?
    ensures p.fromBlock.None? ==> p.handed == [] && p.created == [] && p.claims == []
    ensures p.fromBlock.Some? ==>
              && FirstHead(script).value <= p.fromBlock.value == HighWater(script)
              && p.handed == Range(FirstHead(script).value, p.fromBlock.value)
              && p.created == GetLogs(created, All, FirstHead(script).value, p.fromBlock.value as int - 1)
              && p.claims == GetLogs(claims, All, FirstHead(script).value, p.fromBlock.value as int - 1)
    ensures p.slept == Pauses(script) && p.errorAttempt == ErrorsSinceCleanPoll(script)
  {
    p := IDLE;
    var i := 0;
    while i < |script|
      invariant 0 <= i <= |script|
      invariant Follows(p, created, claims, script[..i])
    {
      var tick := script[i];
      ghost var was := p;
      TickFollows(p, created, claims, script[..i], tick);
      if tick.HeadThrows? {
        p := p.(slept := p.slept + [Backoff(p.errorAttempt)], errorAttempt := p.errorAttempt + 1);
      } else if p.fromBlock.None? {
        p := p.(fromBlock := Some(tick.latest), slept := p.slept + [POLL_INTERVAL_MS]);
      } else if tick.latest >= p.fromBlock.value {
        if tick.logsThrow {
          p := p.(slept := p.slept + [Backoff(p.errorAttempt)], errorAttempt := p.errorAttempt + 1);
        } else {
          var from := p.fromBlock.value;
          p := p.(created := p.created + GetLogs(created, All, from, tick.latest),
                  claims := p.claims + GetLogs(claims, All, from, tick.latest),
                  handed := p.handed + Range(from, tick.latest + 1),
                  fromBlock := Some(tick.latest + 1), errorAttempt := 0, slept := p.slept + [POLL_INTERVAL_MS]);
        }
      } else {
        p := p.(slept := p.slept + [POLL_INTERVAL_MS]);
      }
      assert p == AfterTick(was, created, claims, tick);
      assert script[..i + 1] == script[..i] + [tick];
      i := i + 1;
    }
    assert script[..i] == script;
  }

  lemma FirstHeadFollows(p: Poll, created: Chain, claims: Chain, done: seq<Tick>, tick: Tick)
    requires Follows(p, created, claims, done) && p.fromBlock.None? && tick.Head?
    ensures Follows(p.(fromBlock := Some(tick.latest), slept := p.slept + [POLL_INTERVAL_MS]), created, claims, done + [tick])
  {
    assert (done + [tick])[..|done|] == done;
  }

  // ---------------------------------------------------------------------
  // What the loop is measured against
  // ---------------------------------------------------------------------

  /** The first latest-block answer, where watching starts. */
  function FirstHead(script: seq<Tick>): Option<nat> {
    if script == [] then None
    else if FirstHead(script[..|script| - 1]).Some? then FirstHead(script[..|script| - 1])
    else if script[|script| - 1].Head? then Some(script[|script| - 1].latest) else None
  }

  /** The next block to hand over: one past the highest block polled cleanly. */
  function HighWater(script: seq<Tick>): nat {
    if script == [] then 0
    else
      var before, tick := script[..|script| - 1], script[|script| - 1];
      if FirstHead(before).None? then (if tick.Head? then tick.latest else 0)
      else if tick.Head? && !tick.logsThrow && tick.latest >= HighWater(before) then tick.latest + 1
      else HighWater(before)
  }

  predicate IsCleanPoll(before: seq<Tick>, tick: Tick) {
    FirstHead(before).Some? && tick.Head? && !tick.logsThrow && tick.latest >= HighWater(before)
  }

  /** A tick that throws: the head request, or the logs of a poll with new blocks. */
  predicate IsError(before: seq<Tick>, tick: Tick) {
    tick.HeadThrows? || (FirstHead(before).Some? && tick.latest >= HighWater(before) && tick.logsThrow)
  }

  function ErrorsSinceCleanPoll(script: seq<Tick>): nat {
    if script == [] then 0
    else
      var before, tick := script[..|script| - 1], script[|script| - 1];
      if IsError(before, tick) then ErrorsSinceCleanPoll(before) + 1
      else if IsCleanPoll(before, tick) then 0 else ErrorsSinceCleanPoll(before)
  }

  /** Errors back off by how many came since the last clean poll; all else waits one interval. */
  function Pauses(script: seq<Tick>): seq<nat> {
    if script == [] then []
    else
      var before := script[..|script| - 1];
      Pauses(before) + [if IsError(before, script[|script| - 1]) then Backoff(ErrorsSinceCleanPoll(before)) else POLL_INTERVAL_MS]
  }

  lemma {:induction false} RangeSplit(from: nat, mid: nat, end: nat)
    requires from <= mid <= end
    ensures Range(from, end) == Range(from, mid) + Range(mid, end)
    decreases mid - from
  {
    if from < mid {
      RangeSplit(from + 1, mid, end);
    }
  }

  /** A range holds each of its blocks at one place and nothing else. */
  lemma {:induction false} RangeHoldsEachOnce(from: nat, end: int)
    ensures |Range(from, end)| == if from < end then end - from else 0
    ensures forall i :: 0 <= i < |Range(from, end)| ==> Range(from, end)[i] == from + i
    decreases end - from
  {
    if from < end {
      RangeHoldsEachOnce(from + 1, end);
    }
  }

  /** The next block never moves back, even when the chain head does. */
  lemma {:induction false} HighWaterNeverDecreases(script: seq<Tick>, n: nat)
    requires n <= |script| && FirstHead(script[..n]).Some?
    ensures FirstHead(script) == FirstHead(script[..n])
    ensures HighWater(script[..n]) <= HighWater(script)
    decreases |script|
  {
    if n < |script| {
      var before := script[..|script| - 1];
      assert before[..n] == script[..n];
      HighWaterNeverDecreases(before, n);
    } else {
      assert script[..n] == script;
    }
  }

  /** Exactly once: every block from the first head up to the next block was
      handed over once, no other ever was, whatever errors and reorderings of
      the head the node answered with. */
  lemma BlocksHandedExactlyOnce(first: nat, next: nat, handed: seq<nat>)
    requires first <= next && handed == Range(first, next)
    ensures forall block :: first <= block < next <==> block in handed
    ensures forall i, j :: 0 <= i < j < |handed| ==> handed[i] < handed[j]
  {
    RangeHoldsEachOnce(first, next);
    forall block | first <= block < next ensures block in handed {
      assert handed[block - first] == block;
    }
  }
}
