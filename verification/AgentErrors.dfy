/**
 The rolling error window of an agent and the penalty it leads to:
 api-server/src/lib/agent-store.ts (in-memory branches) and
 api-server/src/services/pricing.ts. Times are milliseconds.
 */
module AgentErrors {
  import opened Text
  import opened Wrappers

  const DAY_MS := 86_400_000
  const DAILY_ERROR_SOFT_THRESHOLD := 3
  const DAILY_ERROR_HARD_THRESHOLD := 5

  /** The multiplier is in hundredths. */
  datatype AgentStatus = AgentStatus(blockedUntil: int, cooldownEnd: int, currentMultiplier: nat)

  const NO_STATUS := AgentStatus(0, 0, 100)

  type ErrorLog = map<string, seq<int>>

  /** The error times of an agent; an absent entry reads as the empty list. */
  function Of(log: ErrorLog, key: string): seq<int> {
    if key in log then log[key] else []
  }

  /** The times strictly after the cutoff, in their order. */
  function Since(times: seq<int>, cutoff: int): seq<int> {
    if times == [] then []
    else Since(times[..|times| - 1], cutoff) + (if times[|times| - 1] > cutoff then [times[|times| - 1]] else [])
  }

  /** The entry after one more error at `time`: expired times go, then the new one is pushed. */
  function Pushed(log: ErrorLog, key: string, now: int, time: int): ErrorLog {
    log[key := Since(Of(log, key), now - DAY_MS) + [time]]
  }

  lemma SinceAppended(times: seq<int>, time: int, cutoff: int)
    ensures Since(times + [time], cutoff) == Since(times, cutoff) + (if time > cutoff then [time] else [])
  {
    assert (times + [time])[..|times|] == times;
  }

  lemma {:induction false} SinceTwice(times: seq<int>, early: int, late: int)
    requires early <= late
    ensures Since(Since(times, early), late) == Since(times, late)
  {
    if times != [] {
      var init, last := times[..|times| - 1], times[|times| - 1];
      SinceTwice(init, early, late);
      if last > early {
        SinceAppended(Since(init, early), last, late);
      } else {
        assert Since(times, early) == Since(init, early) && Since(times, late) == Since(init, late);
      }
    }
  }

  /** The pruned log counts what the full one does, from `now` on. */
  ghost predicate Agree(pruned: ErrorLog, full: ErrorLog, now: int) {
    forall key, cutoff :: cutoff >= now - DAY_MS ==> Since(Of(pruned, key), cutoff) == Since(Of(full, key), cutoff)
  }

  /** Pruning before each push never shows, as long as the clock does not go back. */
  lemma PruningKeepsAgreement(pruned: ErrorLog, full: ErrorLog, was: int, now: int, key: string, time: int)
    requires Agree(pruned, full, was) && was <= now
    ensures Agree(Pushed(pruned, key, now, time), full[key := Of(full, key) + [time]], now)
  {
    forall k, cutoff | cutoff >= now - DAY_MS
      ensures Since(Of(Pushed(pruned, key, now, time), k), cutoff) == Since(Of(full[key := Of(full, key) + [time]], k), cutoff)
    {
      if k == key {
        SinceTwice(Of(pruned, key), now - DAY_MS, cutoff);
        SinceAppended(Since(Of(pruned, key), now - DAY_MS), time, cutoff);
        SinceAppended(Of(full, key), time, cutoff);
        assert Since(Of(pruned, key), cutoff) == Since(Of(full, key), cutoff);
      } else {
        assert Of(Pushed(pruned, key, now, time), k) == Of(pruned, k);
        assert Of(full[key := Of(full, key) + [time]], k) == Of(full, k);
      }
    }
  }

  lemma ClearingKeepsAgreement(pruned: ErrorLog, full: ErrorLog, now: int, key: string)
    requires Agree(pruned, full, now)
    ensures Agree(pruned - {key}, full - {key}, now)
  {
    forall k, cutoff | cutoff >= now - DAY_MS
      ensures Since(Of(pruned - {key}, k), cutoff) == Since(Of(full - {key}, k), cutoff)
    {
      if k != key {
        assert Of(pruned - {key}, k) == Of(pruned, k) && Of(full - {key}, k) == Of(full, k);
      }
    }
  }

  /** agent-store.ts: the module-level maps. `history` holds every error since
      an agent was last cleared and `clock` the latest time read. */
  class AgentStore {
    var memStatus: map<string, AgentStatus>
    var memErrors: ErrorLog
    ghost var history: ErrorLog
    ghost var clock: int

    ghost predicate Valid()
      reads this
    {
      Agree(memErrors, history, clock)
    }

    constructor (now: int)
      ensures Valid() && memStatus == map[] && history == map[] && clock == now
    {
      memStatus, memErrors, history, clock := map[], map[], map[], now;
    }

    method SetAgentStatus(addr: string, data: AgentStatus)
      modifies this`memStatus
      ensures memStatus == old(memStatus)[Lower(addr) := data]
    {
      memStatus := memStatus[Lower(addr) := data];
    }

    method GetAgentStatus(addr: string) returns (status: AgentStatus)
      ensures status == if Lower(addr) in memStatus then memStatus[Lower(addr)] else NO_STATUS
    {
      var key := Lower(addr);
      if key in memStatus {
        status := memStatus[key];
      } else {
        status := NO_STATUS;
      }
    }

    method DeleteAgentStatus(addr: string)
      modifies this`memStatus
      ensures memStatus == old(memStatus) - {Lower(addr)}
    {
      memStatus := memStatus - {Lower(addr)};
    }

    /** The count is over all errors of the last day, the pruned ones too. */
    method RecordDailyError(addr: string, now: int) returns (count: nat)
      requires Valid() && clock <= now
      modifies this`memErrors, this`history, this`clock
      ensures Valid() && clock == now
      ensures history == old(history)[Lower(addr) := Of(old(history), Lower(addr)) + [now]]
      ensures memErrors == Pushed(old(memErrors), Lower(addr), now, now)
      ensures count == |Since(Of(history, Lower(addr)), now - DAY_MS)|
      ensures count == |Since(Of(old(history), Lower(addr)), now - DAY_MS)| + 1
    {
      var key := Lower(addr);
      PruningKeepsAgreement(memErrors, history, clock, now, key, now);
      SinceAppended(Of(history, key), now, now - DAY_MS);
      memErrors := Pushed(memErrors, key, now, now);
      history := history[key := Of(history, key) + [now]];
      clock := now;
      count := |memErrors[key]|;
    }

    method GetDailyErrorCount(addr: string, now: int) returns (count: nat)
      requires Valid() && clock <= now
      ensures count == |Since(Of(history, Lower(addr)), now - DAY_MS)|
    {
      var arr := Of(memErrors, Lower(addr));
      count := |Since(arr, now - DAY_MS)|;
    }

    method ClearDailyErrors(addr: string)
      requires Valid()
      modifies this`memErrors, this`history
      ensures Valid() && memErrors == old(memErrors) - {Lower(addr)} && history == old(history) - {Lower(addr)}
    {
      ClearingKeepsAgreement(memErrors, history, clock, Lower(addr));
      memErrors := memErrors - {Lower(addr)};
      history := history - {Lower(addr)};
    }

    method ClearAgentErrors(addr: string)
      requires Valid()
      modifies this`memStatus, this`memErrors, this`history
      ensures Valid() && memStatus == old(memStatus) - {Lower(addr)}
      ensures memErrors == old(memErrors) - {Lower(addr)} && history == old(history) - {Lower(addr)}
    {
      DeleteAgentStatus(addr);
      ClearDailyErrors(addr);
    }
  }

  // ---------------------------------------------------------------------
  // pricing.ts
  // ---------------------------------------------------------------------

  datatype ErrorHistory = ErrorHistory(total: nat, errors: nat, windowHours: nat)

  /** pricing.ts: its own error store, keyed by the address as spelled and fed
      with timestamps the caller may choose. */
  class AgentErrorStore {
    var agentErrorStore: ErrorLog
    ghost var history: ErrorLog
    ghost var clock: int

    ghost predicate Valid()
      reads this
    {
      Agree(agentErrorStore, history, clock)
    }

    constructor (now: int)
      ensures Valid() && history == map[] && clock == now
    {
      agentErrorStore, history, clock := map[], map[], now;
    }

    method RecordAgentError(agent: string, timestamp: int, now: int) returns (ok: bool)
      requires Valid() && clock <= now
      modifies this
      ensures Valid() && ok == HasPrefix0x(agent)
      ensures ok ==> history == old(history)[agent := Of(old(history), agent) + [timestamp]] && clock == now
      ensures !ok ==> history == old(history) && agentErrorStore == old(agentErrorStore) && clock == old(clock)
    {
      if !HasPrefix0x(agent) {
        return false;
      }
      PruningKeepsAgreement(agentErrorStore, history, clock, now, agent, timestamp);
      agentErrorStore := Pushed(agentErrorStore, agent, now, timestamp);
      history, clock, ok := history[agent := Of(history, agent) + [timestamp]], now, true;
    }

    /** None when the address is refused. */
    method GetAgentErrorHistory(agent: string, now: int) returns (h: Option<ErrorHistory>)
      requires Valid() && clock <= now
      ensures h == if HasPrefix0x(agent) then Some(ErrorHistory(10, |Since(Of(history, agent), now - DAY_MS)|, 24)) else None
    {
      if !HasPrefix0x(agent) {
        return None;
      }
      h := Some(ErrorHistory(10, |Since(Of(agentErrorStore, agent), now - DAY_MS)|, 24));
    }

    method ResetAgentStatus(agent: string) returns (ok: bool)
      requires Valid()
      modifies this`agentErrorStore, this`history
      ensures Valid() && ok == HasPrefix0x(agent)
      ensures history == if ok then old(history) - {agent} else old(history)
    {
      if !HasPrefix0x(agent) {
        return false;
      }
      ClearingKeepsAgreement(agentErrorStore, history, clock, agent);
      agentErrorStore, history, ok := agentErrorStore - {agent}, history - {agent}, true;
    }
  }

  function Min(a: int, b: int): int {
    if a < b then a else b
  }

  function Max(a: int, b: int): int {
    if a > b then a else b
  }

  /** calculatePenaltyScore; the rate comparisons are exact rationals. */
  function PenaltyScore(h: ErrorHistory): nat {
    if h.total == 0 then 100
    else
      var rate := if 100 * h.errors > 30 * h.total then 200 else if 100 * h.errors > 15 * h.total then 150 else 100;
      var capped := Min(h.errors, DAILY_ERROR_HARD_THRESHOLD);
      rate + Max(0, capped - DAILY_ERROR_SOFT_THRESHOLD) * 100
  }

  /** getAgentMultiplier; None when the agent is blocked. */
  function GetAgentMultiplier(agent: AgentStatus, h: ErrorHistory, now: int): Option<nat> {
    if agent.blockedUntil > now then None
    else if agent.cooldownEnd > now then Some(200)
    else Some(PenaltyScore(h))
  }

  /** With policies on record, more errors never cost less. */
  lemma PenaltyIsMonotone(total: nat, few: nat, many: nat)
    requires few <= many
    ensures PenaltyScore(ErrorHistory(total, few, 24)) <= PenaltyScore(ErrorHistory(total, many, 24))
    ensures 100 <= PenaltyScore(ErrorHistory(total, few, 24)) <= 400
  {
    assert total > 0 && 100 * few > 30 * total ==> 100 * many > 30 * total;
  }

  /** The cooldown rate of 200 is not the highest: an agent outside cooldown
      pays more exactly with five errors, or four and a rate above 15 percent. */
  lemma PenaltyAboveCooldown(h: ErrorHistory)
    ensures PenaltyScore(h) > 200 <==> h.total > 0 && (h.errors >= 5 || (h.errors == 4 && h.total <= 26))
  {
    if h.total > 0 && h.errors == 4 {
      assert 100 * h.errors > 15 * h.total <==> h.total <= 26;
    }
  }
}
