/**
 A run of AgentBlock in which a block does not last a moment: one recorder's
 block falls between a quote's decision to rehabilitate and its clearing.
 */
module AgentLapse {
  import opened AgentErrors
  import opened AgentBlock

  function Repeat(time: int, n: nat): seq<int> {
    if n == 0 then [] else Repeat(time, n - 1) + [time]
  }

  lemma {:induction false} RepeatSince(time: int, n: nat, cutoff: int)
    ensures Since(Repeat(time, n), cutoff) == if time > cutoff then Repeat(time, n) else []
    ensures |Repeat(time, n)| == n
  {
    if n > 0 {
      RepeatSince(time, n - 1, cutoff);
      assert Repeat(time, n) == Repeat(time, n - 1) + [time];
      SinceAppended(Repeat(time, n - 1), time, cutoff);
    }
  }

  /** `n` runs of the same steps, one after the other. */
  function RunTimes(s: World, steps: seq<Step>, n: nat): World {
    if n == 0 then s else Run(RunTimes(s, steps, n - 1), steps)
  }

  function Times(steps: seq<Step>, n: nat): seq<Step> {
    if n == 0 then [] else Times(steps, n - 1) + steps
  }

  /** Errors recorded one after the other at one instant. */
  function Burst(agent: string, n: nat): seq<Step> {
    Times([StartRecord(0, agent), Push(0)], n)
  }

  lemma PushRepeats(log: ErrorLog, agent: string, now: int, n: nat)
    requires Since(Of(log, agent), now - DAY_MS) == Repeat(now, n)
    ensures Window(log, agent, now) == n && Pushed(log, agent, now, now) == log[agent := Repeat(now, n + 1)]
  {
    RepeatSince(now, n, now);
  }

  /** One error recorded, `n` others having come at the same instant. */
  lemma RecordOne(s: World, agent: string, n: nat)
    requires s.records == map[] && Since(Of(s.errors, agent), s.clock - DAY_MS) == Repeat(s.clock, n)
    ensures var t := Apply(Apply(s, StartRecord(0, agent)), Push(0));
      t == s.(errors := s.errors[agent := Repeat(s.clock, n + 1)], full := t.full,
              records := if n >= 5 then map[0 := Tripped(agent, s.clock)] else map[])
  {
    PushRepeats(s.errors, agent, s.clock, n);
    var a := Apply(s, StartRecord(0, agent));
    assert a == s.(records := map[0 := Started(agent, s.clock)]);
    assert a.records[0 := Tripped(agent, s.clock)] == map[0 := Tripped(agent, s.clock)];
    assert a.records - {0} == map[];
  }

  /** The world after `n` errors at one instant, and nothing else. */
  predicate AfterBurst(s: World, t: World, agent: string, n: nat) {
    && t.clock == s.clock && t.status == s.status && t.quotes == s.quotes
    && t.records == (if n == 6 then map[0 := Tripped(agent, s.clock)] else map[])
    && Since(Of(t.errors, agent), s.clock - DAY_MS) == Repeat(s.clock, n)
    && (n > 0 ==> Of(t.errors, agent) == Repeat(s.clock, n))
  }

  lemma OneMore(s: World, t: World, u: World, agent: string, n: nat)
    requires AfterBurst(s, t, agent, n) && n < 6
    requires u == t.(errors := t.errors[agent := Repeat(s.clock, n + 1)], full := u.full,
                     records := if n >= 5 then map[0 := Tripped(agent, s.clock)] else map[])
    ensures AfterBurst(s, u, agent, n + 1)
  {
    assert Of(u.errors, agent) == Repeat(s.clock, n + 1);
    RepeatSince(s.clock, n + 1, s.clock - DAY_MS);
  }

  lemma {:induction false} TimesRuns(s: World, steps: seq<Step>, n: nat)
    ensures Run(s, Times(steps, n)) == RunTimes(s, steps, n)
  {
    if n > 0 {
      TimesRuns(s, steps, n - 1);
      RunAppend(s, Times(steps, n - 1), steps);
    }
  }

  lemma ErrorKeepsBurst(s: World, t: World, agent: string, n: nat)
    requires AfterBurst(s, t, agent, n) && n < 6
    ensures AfterBurst(s, Run(t, [StartRecord(0, agent), Push(0)]), agent, n + 1)
  {
    RunTwo(t, StartRecord(0, agent), Push(0));
    RecordOne(t, agent, n);
    OneMore(s, t, Run(t, [StartRecord(0, agent), Push(0)]), agent, n);
  }

  lemma BurstBegins(s: World, agent: string)
    requires s.records == map[] && Since(Of(s.errors, agent), s.clock - DAY_MS) == []
    ensures AfterBurst(s, s, agent, 0)
  {
    assert Repeat(s.clock, 0) == [];
  }

  lemma {:induction false} ErrorsKeepBurst(s: World, agent: string, steps: seq<Step>, n: nat)
    requires steps == [StartRecord(0, agent), Push(0)] && AfterBurst(s, s, agent, 0) && n <= 6
    ensures AfterBurst(s, RunTimes(s, steps, n), agent, n)
  {
    if n > 0 {
      ErrorsKeepBurst(s, agent, steps, n - 1);
      ErrorKeepsBurst(s, RunTimes(s, steps, n - 1), agent, n - 1);
    }
  }

  lemma BurstRecords(s: World, agent: string, n: nat) returns (t: World)
    requires s.records == map[] && Since(Of(s.errors, agent), s.clock - DAY_MS) == [] && n <= 6
    ensures t == Run(s, Burst(agent, n)) && AfterBurst(s, t, agent, n)
  {
    var steps := [StartRecord(0, agent), Push(0)];
    t := RunTimes(s, steps, n);
    TimesRuns(s, steps, n);
    BurstBegins(s, agent);
    ErrorsKeepBurst(s, agent, steps, n);
  }

  lemma WriteOne(s: World, agent: string, at: int)
    requires s.records == map[0 := Tripped(agent, at)]
    ensures Apply(s, WriteBlock(0)) == s.(status := s.status[agent := Blocked(at)], records := map[])
  {
    assert s.records - {0} == map[];
  }

  /** A block three quiet days ago, then five errors: unblocked, the sixth still to come. */
  function Prologue(agent: string): seq<Step> {
    Burst(agent, 6) + [WriteBlock(0), Tick(3 * DAY_MS)] + Burst(agent, 5)
  }

  lemma PrologueLeavesFive(now: nat, agent: string) returns (s: World)
    ensures s == Run(Initial(now), Prologue(agent))
    ensures s.clock == now + 3 * DAY_MS && s.quotes == map[] && s.records == map[]
    ensures s.status == map[agent := Blocked(now)] && Of(s.errors, agent) == Repeat(s.clock, 5)
  {
    var s0 := Initial(now);
    var s1 := BurstRecords(s0, agent, 6);
    WriteOne(s1, agent, now);
    RunTwo(s1, WriteBlock(0), Tick(3 * DAY_MS));
    var s2 := Run(s1, [WriteBlock(0), Tick(3 * DAY_MS)]);
    RunAppend(s0, Burst(agent, 6), [WriteBlock(0), Tick(3 * DAY_MS)]);
    RepeatSince(now, 6, s2.clock - DAY_MS);
    s := BurstRecords(s2, agent, 5);
    RunAppend(s0, Burst(agent, 6) + [WriteBlock(0), Tick(3 * DAY_MS)], Burst(agent, 5));
  }

  /** A quote counts the five errors, the sixth is pushed, the quote decides, and
      the block is written. All of it takes no time. */
  function Race(agent: string): seq<Step> {
    [Count(0, agent, 0)] + [StartRecord(0, agent), Push(0)] + [Decide(0, 0), WriteBlock(0)]
  }

  lemma RaceBlocks(s: World, agent: string, was: nat) returns (t: World)
    requires s.clock == was + 3 * DAY_MS && s.quotes == map[] && s.records == map[]
    requires s.status == map[agent := Blocked(was)] && Of(s.errors, agent) == Repeat(s.clock, 5)
    ensures t == Run(s, Race(agent)) && t.clock == s.clock
    ensures t.status == map[agent := Blocked(s.clock)] && t.quotes == map[0 := DroppingStatus(agent, 100, s.clock)]
  {
    RepeatSince(s.clock, 5, s.clock - DAY_MS);
    var a := Apply(s, Count(0, agent, 0));
    assert a == s.(quotes := map[0 := Counted(agent, ErrorHistory(0, 5, 24))]);
    RunOne(s, Count(0, agent, 0));
    RecordOne(a, agent, 5);
    RunTwo(a, StartRecord(0, agent), Push(0));
    RunAppend(s, [Count(0, agent, 0)], [StartRecord(0, agent), Push(0)]);
    var b := Apply(Apply(a, StartRecord(0, agent)), Push(0));
    t := DecideThenWrite(b, agent, was);
    RunAppend(s, [Count(0, agent, 0)] + [StartRecord(0, agent), Push(0)], [Decide(0, 0), WriteBlock(0)]);
  }

  lemma DecideThenWrite(s: World, agent: string, was: nat) returns (t: World)
    requires s.clock == was + 3 * DAY_MS && s.quotes == map[0 := Counted(agent, ErrorHistory(0, 5, 24))]
    requires s.records == map[0 := Tripped(agent, s.clock)] && s.status == map[agent := Blocked(was)]
    ensures t == Run(s, [Decide(0, 0), WriteBlock(0)]) && t.clock == s.clock
    ensures t.status == map[agent := Blocked(s.clock)] && t.quotes == map[0 := DroppingStatus(agent, 100, s.clock)]
  {
    RunTwo(s, Decide(0, 0), WriteBlock(0));
    var a := Apply(s, Decide(0, 0));
    assert a == s.(quotes := map[0 := DroppingStatus(agent, 100, s.clock)]);
    WriteOne(a, agent, s.clock);
    t := Apply(a, WriteBlock(0));
  }

  /** The promise fails: without any administrator a sixth error blocks the agent
      and at that same instant a quote at the base rate goes out, because the
      block was written between another quote's decision to rehabilitate the
      agent and its clearing. */
  lemma RehabilitationLiftsAFreshBlock(now: nat, agent: string)
    ensures var blocked := Prologue(agent) + Race(agent);
      var s, t := Run(Initial(now), blocked), Run(Initial(now), blocked + ClearAndAsk(0, 1, agent));
      && StatusOf(s, agent) == Blocked(s.clock)
      && 1 !in s.quotes && 1 in t.quotes && t.quotes[1] == Quoted(agent, 100, s.clock)
  {
    var s0 := PrologueLeavesFive(now, agent);
    var s := RaceBlocks(s0, agent, now);
    RunAppend(Initial(now), Prologue(agent), Race(agent));
    ClearedAgentIsQuoted(s, 0, 1, agent);
    RunAppend(Initial(now), Prologue(agent) + Race(agent), ClearAndAsk(0, 1, agent));
  }
}
