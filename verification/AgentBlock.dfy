/**
 Blocking an agent: api-server/src/routes/insurance.ts, `recordDailyError`,
 `/prepare-buy` and `/admin/reset-agent`, over the maps of AgentErrors.
 Every `await` is a place where other requests may run. Reading the status and
 deciding on it is one step: without Redis nothing but resolved promises lies
 between them.
 */
module AgentBlock {
  import opened AgentErrors

  /** A recordDailyError call: after reading its clock, or with the block left to write. */
  datatype Record = Started(agent: string, at: int) | Tripped(agent: string, at: int)

  /** A prepare-buy call: where it stands and what it has read so far. */
  datatype Quote =
    | Counted(agent: string, history: ErrorHistory)
    | DroppingStatus(agent: string, multiplier: nat, at: int)
    | DroppingErrors(agent: string, multiplier: nat, at: int)
    | Refused(agent: string, httpStatus: nat)
    | Quoted(agent: string, multiplier: nat, at: int)

  /** The maps, the calls in progress, and in `full` every error since the last clear. */
  datatype World = World(clock: int, errors: ErrorLog, full: ErrorLog, status: map<string, AgentStatus>,
                         records: map<nat, Record>, quotes: map<nat, Quote>)

  datatype Step =
    | Tick(ms: nat)
    | StartRecord(id: nat, agent: string)
    | Push(id: nat)
    | WriteBlock(id: nat)
    | Count(id: nat, agent: string, total: nat)
    | Decide(id: nat, ms: nat)
    | DropStatus(id: nat)
    | DropErrors(id: nat)
    | AdminDropStatus(agent: string)
    | AdminDropErrors(agent: string)

  /** Errors of the last day as the store counts them. */
  function Window(log: ErrorLog, agent: string, now: int): nat {
    |Since(Of(log, agent), now - DAY_MS)|
  }

  function Blocked(at: int): AgentStatus {
    AgentStatus(at + DAY_MS, at + 2 * DAY_MS, 200)
  }

  function StatusOf(s: World, agent: string): AgentStatus {
    if agent in s.status then s.status[agent] else NO_STATUS
  }

  /** recordDailyError after the store answered. */
  function Recorded(s: World, id: nat, r: Record): World {
    var count := Window(s.errors, r.agent, s.clock) + 1;
    s.(errors := Pushed(s.errors, r.agent, s.clock, s.clock),
       full := s.full[r.agent := Of(s.full, r.agent) + [s.clock]],
       records := if count > DAILY_ERROR_HARD_THRESHOLD then s.records[id := Tripped(r.agent, r.at)] else s.records - {id})
  }

  /** prepare-buy with the status it read: refuse, quote, or rehabilitate first. */
  function Decided(agent: string, history: ErrorHistory, status: AgentStatus, now: int, later: int): Quote {
    var multiplier := GetAgentMultiplier(status, history, now);
    if multiplier.None? then Refused(agent, 403)
    else if status.cooldownEnd > 0 && status.cooldownEnd < later && multiplier.value == 100
    then DroppingStatus(agent, 100, now)
    else Quoted(agent, multiplier.value, now)
  }

  /** One step; a step of a call that is not at that point changes nothing. */
  function Apply(s: World, step: Step): World {
    match step
    case Tick(ms) => s.(clock := s.clock + ms)
    case StartRecord(id, agent) =>
      if id in s.records then s else s.(records := s.records[id := Started(agent, s.clock)])
    case Push(id) =>
      if id in s.records && s.records[id].Started? then Recorded(s, id, s.records[id]) else s
    case WriteBlock(id) =>
      if id in s.records && s.records[id].Tripped?
      then s.(status := s.status[s.records[id].agent := Blocked(s.records[id].at)], records := s.records - {id})
      else s
    case Count(id, agent, total) =>
      if id in s.quotes then s
      else
        var count := Window(s.errors, agent, s.clock);
        s.(quotes := s.quotes[id := if count > DAILY_ERROR_HARD_THRESHOLD then Refused(agent, 429)
                                    else Counted(agent, ErrorHistory(total, count, 24))])
    case Decide(id, ms) =>
      if id in s.quotes && s.quotes[id].Counted?
      then
        var q := s.quotes[id];
        s.(quotes := s.quotes[id := Decided(q.agent, q.history, StatusOf(s, q.agent), s.clock, s.clock + ms)],
           clock := s.clock + ms)
      else s
    case DropStatus(id) =>
      if id in s.quotes && s.quotes[id].DroppingStatus?
      then s.(status := s.status - {s.quotes[id].agent},
              quotes := s.quotes[id := DroppingErrors(s.quotes[id].agent, s.quotes[id].multiplier, s.quotes[id].at)])
      else s
    case DropErrors(id) =>
      if id in s.quotes && s.quotes[id].DroppingErrors?
      then s.(errors := s.errors - {s.quotes[id].agent}, full := s.full - {s.quotes[id].agent},
              quotes := s.quotes[id := Quoted(s.quotes[id].agent, s.quotes[id].multiplier, s.quotes[id].at)])
      else s
    case AdminDropStatus(agent) => s.(status := s.status - {agent})
    case AdminDropErrors(agent) => s.(errors := s.errors - {agent}, full := s.full - {agent})
  }

  function Run(s: World, steps: seq<Step>): World {
    if steps == [] then s else Apply(Run(s, steps[..|steps| - 1]), steps[|steps| - 1])
  }

  function Initial(now: int): World {
    World(now, map[], map[], map[], map[], map[])
  }

  lemma StepClock(s: World, step: Step)
    ensures Apply(s, step).clock >= s.clock
  {
  }

  lemma {:induction false} ClockNeverGoesBack(s: World, steps: seq<Step>)
    ensures Run(s, steps).clock >= s.clock
  {
    if steps != [] {
      ClockNeverGoesBack(s, steps[..|steps| - 1]);
      StepClock(Run(s, steps[..|steps| - 1]), steps[|steps| - 1]);
    }
  }

  // ---------------------------------------------------------------------
  // The window
  // ---------------------------------------------------------------------

  lemma StepKeepsAgreement(s: World, step: Step)
    requires Agree(s.errors, s.full, s.clock)
    ensures var t := Apply(s, step); Agree(t.errors, t.full, t.clock)
  {
    match step
    case Push(id) =>
      if id in s.records && s.records[id].Started? {
        PruningKeepsAgreement(s.errors, s.full, s.clock, s.clock, s.records[id].agent, s.clock);
      }
    case DropErrors(id) =>
      if id in s.quotes && s.quotes[id].DroppingErrors? {
        ClearingKeepsAgreement(s.errors, s.full, s.clock, s.quotes[id].agent);
      }
    case AdminDropErrors(agent) => ClearingKeepsAgreement(s.errors, s.full, s.clock, agent);
    case _ =>
  }

  /** Over every run the pruned window counts what the full record of errors
      since the last clear holds for the day. */
  lemma {:induction false} PruningIsInvisible(now: int, steps: seq<Step>)
    ensures var s := Run(Initial(now), steps); Agree(s.errors, s.full, s.clock)
  {
    if steps != [] {
      PruningIsInvisible(now, steps[..|steps| - 1]);
      StepKeepsAgreement(Run(Initial(now), steps[..|steps| - 1]), steps[|steps| - 1]);
    }
  }

  /** A recorded error trips the block exactly when five others of the same
      agent lie in the day before it, and a quote is refused outright exactly
      when more than five do. */
  lemma SixthErrorTrips(now: int, steps: seq<Step>, id: nat, agent: string, total: nat)
    ensures var s := Run(Initial(now), steps);
      && (id in s.records && s.records[id].Started? ==>
            (id in Apply(s, Push(id)).records <==> Window(s.full, s.records[id].agent, s.clock) >= 5))
      && (id !in s.quotes ==>
            (Apply(s, Count(id, agent, total)).quotes[id] == Refused(agent, 429) <==> Window(s.full, agent, s.clock) >= 6))
  {
    PruningIsInvisible(now, steps);
    var s := Run(Initial(now), steps);
    assert Window(s.errors, agent, s.clock) == Window(s.full, agent, s.clock);
    if id in s.records {
      assert Window(s.errors, s.records[id].agent, s.clock) == Window(s.full, s.records[id].agent, s.clock);
    }
  }

  // ---------------------------------------------------------------------
  // The block
  // ---------------------------------------------------------------------

  /** A block of time `floor` or later stands. */
  predicate InForce(status: AgentStatus, floor: int) {
    status.blockedUntil >= floor + DAY_MS && status.cooldownEnd >= floor + 2 * DAY_MS
  }

  /** No recordDailyError call of the agent that began before `floor` is still running. */
  predicate NoneOvertaken(s: World, agent: string, floor: int) {
    forall id :: id in s.records && s.records[id].agent == agent ==> s.records[id].at >= floor
  }

  /** A quote that decided to rehabilitate the agent and has not yet dropped its status. */
  predicate StaleRehabilitation(q: Quote, agent: string) {
    q.agent == agent && q.DroppingStatus?
  }

  predicate NoneStale(s: World, agent: string) {
    forall id :: id in s.quotes ==> !StaleRehabilitation(s.quotes[id], agent)
  }

  predicate Kept(s: World, agent: string, floor: int) {
    && floor <= s.clock
    && InForce(StatusOf(s, agent), floor)
    && NoneOvertaken(s, agent, floor)
    && NoneStale(s, agent)
  }

  predicate Quiet(step: Step, agent: string) {
    step != AdminDropStatus(agent)
  }

  lemma StepKeepsBlock(s: World, step: Step, agent: string, floor: int)
    requires Kept(s, agent, floor) && Quiet(step, agent)
    requires Apply(s, step).clock <= floor + 2 * DAY_MS
    ensures Kept(Apply(s, step), agent, floor)
  {
    if step.DropStatus? && step.id in s.quotes {
      assert !StaleRehabilitation(s.quotes[step.id], agent);
    }
  }

  predicate AllQuiet(steps: seq<Step>, agent: string) {
    AdminDropStatus(agent) !in steps
  }

  lemma {:induction false} RunKeepsBlock(s: World, steps: seq<Step>, agent: string, floor: int)
    requires Kept(s, agent, floor) && AllQuiet(steps, agent)
    requires Run(s, steps).clock <= floor + 2 * DAY_MS
    ensures Kept(Run(s, steps), agent, floor)
  {
    if steps != [] {
      var init := steps[..|steps| - 1];
      StepClock(Run(s, init), steps[|steps| - 1]);
      RunKeepsBlock(s, init, agent, floor);
      StepKeepsBlock(Run(s, init), steps[|steps| - 1], agent, floor);
    }
  }

  // ---------------------------------------------------------------------
  // When the block can be lifted early
  // ---------------------------------------------------------------------

  /** Whatever runs next, short of an administrator's reset, the block stands for 48 hours. */
  ghost predicate BlockStands(s: World, agent: string, floor: int) {
    forall steps :: AllQuiet(steps, agent) && Run(s, steps).clock <= floor + 2 * DAY_MS
                    ==> InForce(StatusOf(Run(s, steps), agent), floor)
  }

  lemma RunOne(s: World, step: Step)
    ensures Run(s, [step]) == Apply(s, step)
  {
    assert [step][..0] == [] && Run(s, []) == s;
  }

  lemma RunMore(s: World, steps: seq<Step>, step: Step)
    ensures Run(s, steps + [step]) == Apply(Run(s, steps), step)
  {
    assert (steps + [step])[..|steps|] == steps;
  }

  /** A pending rehabilitation lifts whatever block stands by its next step. */
  lemma StaleLiftsTheBlock(s: World, agent: string, floor: int, q: nat)
    requires 0 <= floor && q in s.quotes && StaleRehabilitation(s.quotes[q], agent)
    ensures Run(s, [DropStatus(q)]).clock == s.clock && !InForce(StatusOf(Run(s, [DropStatus(q)]), agent), floor)
  {
    RunOne(s, DropStatus(q));
  }

  /** A day after a sixth error, two for the doubled rate: the promise holds on
      every continuation exactly when no rehabilitation of the agent is pending. */
  lemma BlockStandsIffNoneStale(s: World, agent: string, floor: int)
    requires 0 <= floor <= s.clock <= floor + 2 * DAY_MS
    requires InForce(StatusOf(s, agent), floor) && NoneOvertaken(s, agent, floor)
    ensures BlockStands(s, agent, floor) <==> NoneStale(s, agent)
  {
    if NoneStale(s, agent) {
      forall steps | AllQuiet(steps, agent) && Run(s, steps).clock <= floor + 2 * DAY_MS
        ensures InForce(StatusOf(Run(s, steps), agent), floor)
      {
        RunKeepsBlock(s, steps, agent, floor);
      }
    } else {
      var q :| q in s.quotes && StaleRehabilitation(s.quotes[q], agent);
      StaleLiftsTheBlock(s, agent, floor, q);
      assert AllQuiet([DropStatus(q)], agent);
    }
  }

  // ---------------------------------------------------------------------
  // What quotes that come after the block are told
  // ---------------------------------------------------------------------

  /** What a quote of the agent was given respects the block. */
  predicate Respects(q: Quote, floor: int) {
    match q
    case DroppingStatus(_, _, at) => at >= floor + 2 * DAY_MS
    case DroppingErrors(_, _, at) => at >= floor + 2 * DAY_MS
    case Quoted(_, multiplier, at) => at >= floor + DAY_MS && (at < floor + 2 * DAY_MS ==> multiplier == 200)
    case _ => true
  }

  /** So do all quotes but those that were there `before`. */
  predicate NewcomersRespect(s: World, before: set<nat>, agent: string, floor: int) {
    forall q :: q in s.quotes && q !in before && s.quotes[q].agent == agent ==> Respects(s.quotes[q], floor)
  }

  lemma StepRespectsBlock(s: World, step: Step, before: set<nat>, agent: string, floor: int)
    requires NewcomersRespect(s, before, agent, floor)
    requires s.clock > floor + 2 * DAY_MS || Kept(s, agent, floor)
    ensures NewcomersRespect(Apply(s, step), before, agent, floor)
  {
    var t := Apply(s, step);
    forall q | q in t.quotes && q !in before && t.quotes[q].agent == agent ensures Respects(t.quotes[q], floor) {
      if q in s.quotes {
        assert s.quotes[q].agent == agent;
      }
    }
  }

  lemma {:induction false} NewcomersAlwaysRespect(s: World, steps: seq<Step>, before: set<nat>, agent: string, floor: int)
    requires Kept(s, agent, floor) && NewcomersRespect(s, before, agent, floor) && AllQuiet(steps, agent)
    ensures NewcomersRespect(Run(s, steps), before, agent, floor)
  {
    if steps != [] {
      var init := steps[..|steps| - 1];
      NewcomersAlwaysRespect(s, init, before, agent, floor);
      if Run(s, init).clock <= floor + 2 * DAY_MS {
        RunKeepsBlock(s, init, agent, floor);
      }
      StepRespectsBlock(Run(s, init), steps[|steps| - 1], before, agent, floor);
    }
  }

  /** What a quote is given respects a block of `floor`: nothing for a day, and
      for another nothing below the doubled rate. */
  predicate Obeys(s: World, q: nat, agent: string, floor: int) {
    q in s.quotes && s.quotes[q].agent == agent && s.quotes[q].Quoted?
    ==> s.quotes[q].at >= floor + DAY_MS && (s.quotes[q].at < floor + 2 * DAY_MS ==> s.quotes[q].multiplier == 200)
  }

  /** After the block, every later quote for the agent obeys it, however long the run. */
  lemma LaterQuotesRespectBlock(s: World, steps: seq<Step>, agent: string, floor: int, q: nat)
    requires Kept(s, agent, floor) && AllQuiet(steps, agent)
    requires q !in s.quotes
    ensures Obeys(Run(s, steps), q, agent, floor)
  {
    NewcomersAlwaysRespect(s, steps, s.quotes.Keys, agent, floor);
  }

  /** From the writing of a tripped error's block on, quotes that begin later obey it. */
  lemma WrittenBlockProtects(s: World, id: nat, floor: int, later: seq<Step>, q: nat)
    requires id in s.records && s.records[id].Tripped? && floor <= s.records[id].at && floor <= s.clock
    requires NoneOvertaken(s, s.records[id].agent, floor) && NoneStale(s, s.records[id].agent)
    requires AllQuiet(later, s.records[id].agent) && q !in s.quotes
    ensures Obeys(Run(Apply(s, WriteBlock(id)), later), q, s.records[id].agent, floor)
  {
    var after, agent := Apply(s, WriteBlock(id)), s.records[id].agent;
    assert StatusOf(after, agent) == Blocked(s.records[id].at) && after.quotes == s.quotes;
    LaterQuotesRespectBlock(after, later, agent, floor, q);
  }

  // ---------------------------------------------------------------------
  // From the sixth error on
  // ---------------------------------------------------------------------

  /** A quote that is clearing the agent or is about to: it drops the status, or
      drops the errors of an agent that is not blocked, or it counted the errors
      before and will find an ended cooldown and no penalty. */
  predicate Rehabilitating(s: World, q: Quote, agent: string) {
    && q.agent == agent
    && (q.DroppingStatus?
        || (q.DroppingErrors? && StatusOf(s, agent).blockedUntil <= s.clock)
        || (q.Counted? && Recovered(StatusOf(s, agent), s.clock) && PenaltyScore(q.history) == 100))
  }

  predicate Recovered(status: AgentStatus, now: int) {
    0 < status.cooldownEnd < now
  }

  predicate NoneRehabilitating(s: World, agent: string) {
    forall q :: q in s.quotes ==> !Rehabilitating(s, s.quotes[q], agent)
  }

  predicate Undisturbed(steps: seq<Step>, agent: string) {
    AdminDropStatus(agent) !in steps && AdminDropErrors(agent) !in steps
  }

  /** A quote from before the error that can do the block no harm. */
  predicate Harmless(s: World, q: Quote, agent: string) {
    && !q.DroppingStatus?
    && (q.DroppingErrors? ==> StatusOf(s, agent).blockedUntil > s.clock)
    && (q.Counted? ==> !(Recovered(StatusOf(s, agent), s.clock) && PenaltyScore(q.history) == 100))
  }

  /** A quote from after it: refused, or bound to be. */
  predicate Barred(s: World, q: Quote, agent: string) {
    q.Refused? || (q.Counted? && StatusOf(s, agent).blockedUntil > s.clock)
  }

  /** Between the error's push and its block's write. */
  predicate Pending(s: World, id: nat, before: set<nat>, agent: string, floor: int) {
    && floor <= s.clock < floor + DAY_MS
    && (Window(s.errors, agent, s.clock) >= 6 || StatusOf(s, agent).blockedUntil > s.clock)
    && id in s.records && s.records[id].Tripped? && s.records[id].agent == agent
    && NoneOvertaken(s, agent, floor)
    && before <= s.quotes.Keys
    && (forall q :: q in s.quotes && s.quotes[q].agent == agent ==>
          if q in before then Harmless(s, s.quotes[q], agent) else Barred(s, s.quotes[q], agent))
  }

  lemma WindowGrows(log: ErrorLog, agent: string, other: string, now: int)
    ensures Window(Pushed(log, other, now, now), agent, now) >= Window(log, agent, now)
    ensures other == agent ==> Window(Pushed(log, other, now, now), agent, now) == Window(log, agent, now) + 1
  {
    if other == agent {
      SinceTwice(Of(log, agent), now - DAY_MS, now - DAY_MS);
      SinceAppended(Since(Of(log, agent), now - DAY_MS), now, now - DAY_MS);
    } else {
      assert Of(Pushed(log, other, now, now), agent) == Of(log, agent);
    }
  }

  lemma PushingKeepsPending(s: World, step: Step, id: nat, before: set<nat>, agent: string, floor: int)
    requires Pending(s, id, before, agent, floor) && step.Push?
    ensures Pending(Apply(s, step), id, before, agent, floor)
  {
    if step.id in s.records && s.records[step.id].Started? {
      WindowGrows(s.errors, agent, s.records[step.id].agent, s.clock);
      PushMovesRecords(s, step.id);
      PendingOutlasts(s, Apply(s, step), id, before, agent, floor);
    }
  }

  /** A push leaves every other recorder alone and its own at the time it began. */
  lemma PushMovesRecords(s: World, r: nat)
    requires r in s.records && s.records[r].Started?
    ensures var t := Apply(s, Push(r));
      && t.clock == s.clock && t.quotes == s.quotes && t.status == s.status
      && t.errors == Pushed(s.errors, s.records[r].agent, s.clock, s.clock)
      && (forall id :: id in s.records && id != r ==> id in t.records && t.records[id] == s.records[id])
      && (forall id :: id in t.records ==> id in s.records && t.records[id].agent == s.records[id].agent
                                           && t.records[id].at == s.records[id].at)
  {
  }

  /** A pending block outlasts anything that keeps clock, quotes and status and shrinks no window. */
  lemma PendingOutlasts(s: World, t: World, id: nat, before: set<nat>, agent: string, floor: int)
    requires Pending(s, id, before, agent, floor)
    requires t.clock == s.clock && t.quotes == s.quotes && t.status == s.status
    requires Window(t.errors, agent, s.clock) >= Window(s.errors, agent, s.clock)
    requires id in t.records && t.records[id] == s.records[id] && NoneOvertaken(t, agent, floor)
    ensures Pending(t, id, before, agent, floor)
  {
  }

  lemma CountingKeepsPending(s: World, step: Step, id: nat, before: set<nat>, agent: string, floor: int)
    requires Pending(s, id, before, agent, floor) && step.Count?
    ensures Pending(Apply(s, step), id, before, agent, floor)
  {
  }

  /** No step that takes no time disturbs a pending block, short of an administrator. */
  lemma StepKeepsPending(s: World, step: Step, id: nat, before: set<nat>, agent: string, floor: int)
    requires Pending(s, id, before, agent, floor) && Apply(s, step).clock == s.clock
    requires step != WriteBlock(id) && step != AdminDropStatus(agent) && step != AdminDropErrors(agent)
    ensures Pending(Apply(s, step), id, before, agent, floor)
  {
    match step
    case Push(_) => PushingKeepsPending(s, step, id, before, agent, floor);
    case Count(_, _, _) => CountingKeepsPending(s, step, id, before, agent, floor);
    case Decide(_, _) => DecidingKeepsPending(s, step, id, before, agent, floor);
    case DropErrors(_) => ClearingKeepsPending(s, step, id, before, agent, floor);
    case WriteBlock(_) => WritingKeepsPending(s, step, id, before, agent, floor);
    case AdminDropErrors(other) => assert Of(s.errors - {other}, agent) == Of(s.errors, agent);
    case _ =>
  }

  lemma DecidingKeepsPending(s: World, step: Step, id: nat, before: set<nat>, agent: string, floor: int)
    requires Pending(s, id, before, agent, floor) && step.Decide? && Apply(s, step).clock == s.clock
    ensures Pending(Apply(s, step), id, before, agent, floor)
  {
    if step.id in s.quotes && s.quotes[step.id].Counted? && s.quotes[step.id].agent == agent {
      assert if step.id in before then Harmless(s, s.quotes[step.id], agent) else Barred(s, s.quotes[step.id], agent);
    }
  }

  lemma WritingKeepsPending(s: World, step: Step, id: nat, before: set<nat>, agent: string, floor: int)
    requires Pending(s, id, before, agent, floor) && step.WriteBlock? && step.id != id
    ensures Pending(Apply(s, step), id, before, agent, floor)
  {
  }

  lemma ClearingKeepsPending(s: World, step: Step, id: nat, before: set<nat>, agent: string, floor: int)
    requires Pending(s, id, before, agent, floor) && step.DropErrors?
    ensures Pending(Apply(s, step), id, before, agent, floor)
  {
    if step.id in s.quotes && s.quotes[step.id].DroppingErrors? {
      if s.quotes[step.id].agent == agent {
        assert if step.id in before then Harmless(s, s.quotes[step.id], agent) else Barred(s, s.quotes[step.id], agent);
      } else {
        assert Of(s.errors - {s.quotes[step.id].agent}, agent) == Of(s.errors, agent);
      }
    }
  }

  lemma {:induction false} RunKeepsPending(s: World, steps: seq<Step>, id: nat, before: set<nat>, agent: string, floor: int)
    requires Pending(s, id, before, agent, floor) && Run(s, steps).clock == s.clock
    requires Undisturbed(steps, agent) && WriteBlock(id) !in steps
    ensures Pending(Run(s, steps), id, before, agent, floor)
  {
    if steps != [] {
      var init := steps[..|steps| - 1];
      ClockNeverGoesBack(s, init);
      StepClock(Run(s, init), steps[|steps| - 1]);
      RunKeepsPending(s, init, id, before, agent, floor);
      StepKeepsPending(Run(s, init), steps[|steps| - 1], id, before, agent, floor);
    }
  }

  /** The recorder `id` is about to push an error with five others in its day. */
  predicate AtSixthError(s: World, id: nat, floor: int) {
    && id in s.records && s.records[id].Started?
    && 0 <= floor <= s.clock < floor + DAY_MS && Window(s.full, s.records[id].agent, s.clock) >= 5
    && NoneOvertaken(s, s.records[id].agent, floor)
  }

  lemma PushMakesPending(s: World, id: nat, floor: int)
    requires Agree(s.errors, s.full, s.clock)
    requires AtSixthError(s, id, floor) && NoneRehabilitating(s, s.records[id].agent)
    ensures Pending(Apply(s, Push(id)), id, s.quotes.Keys, s.records[id].agent, floor)
  {
    var agent := s.records[id].agent;
    assert Window(s.errors, agent, s.clock) == Window(s.full, agent, s.clock);
    WindowGrows(s.errors, agent, agent, s.clock);
    forall q | q in s.quotes && s.quotes[q].agent == agent ensures Harmless(Apply(s, Push(id)), s.quotes[q], agent) {
      assert !Rehabilitating(s, s.quotes[q], agent);
    }
  }

  lemma WriteMakesKept(s: World, id: nat, before: set<nat>, agent: string, floor: int)
    requires Pending(s, id, before, agent, floor)
    ensures Kept(Apply(s, WriteBlock(id)), agent, floor)
    ensures NewcomersRespect(Apply(s, WriteBlock(id)), before, agent, floor)
  {
    assert StatusOf(Apply(s, WriteBlock(id)), agent) == Blocked(s.records[id].at);
  }

  /** What may happen from the push on: `between`, in which no time passes, then
      the block is written, then `rest`; no administrator resets the agent. That
      no time passes is an idealisation: only resolved promises lie in between,
      but the millisecond may change there, and an old error leave the window. */
  predicate Course(s: World, id: nat, between: seq<Step>, rest: seq<Step>)
    requires id in s.records
  {
    && Undisturbed(between, s.records[id].agent) && WriteBlock(id) !in between
    && Run(Apply(s, Push(id)), between).clock == s.clock
    && AllQuiet(rest, s.records[id].agent)
  }

  /** Quote `q` obeys the block before it is written and after. */
  predicate ObeysAlong(s: World, id: nat, between: seq<Step>, rest: seq<Step>, q: nat, floor: int)
    requires id in s.records
  {
    var pending := Run(Apply(s, Push(id)), between);
    && Obeys(pending, q, s.records[id].agent, floor)
    && Obeys(Run(Apply(pending, WriteBlock(id)), rest), q, s.records[id].agent, floor)
  }

  /** No quote that begins after the push goes out against the block of `floor`. */
  ghost predicate Protected(s: World, id: nat, floor: int)
    requires id in s.records
  {
    forall between, rest, q :: Course(s, id, between, rest) && q !in s.quotes ==> ObeysAlong(s, id, between, rest, q, floor)
  }

  lemma PushProtects(s: World, id: nat, floor: int, between: seq<Step>, rest: seq<Step>, q: nat)
    requires Agree(s.errors, s.full, s.clock)
    requires AtSixthError(s, id, floor) && NoneRehabilitating(s, s.records[id].agent)
    requires Course(s, id, between, rest) && q !in s.quotes
    ensures ObeysAlong(s, id, between, rest, q, floor)
  {
    var agent, pushed := s.records[id].agent, Apply(s, Push(id));
    PushMakesPending(s, id, floor);
    RunKeepsPending(pushed, between, id, s.quotes.Keys, agent, floor);
    var pending := Run(pushed, between);
    WriteMakesKept(pending, id, s.quotes.Keys, agent, floor);
    NewcomersAlwaysRespect(Apply(pending, WriteBlock(id)), rest, s.quotes.Keys, agent, floor);
  }

  // -- a rehabilitation under way breaks it --------------------------------

  /** Every status that was ever written is a block. */
  predicate WellFormed(s: World) {
    forall agent :: agent in s.status ==> s.status[agent].cooldownEnd == s.status[agent].blockedUntil + DAY_MS
  }

  lemma {:induction false} RunsAreWellFormed(now: int, steps: seq<Step>)
    ensures WellFormed(Run(Initial(now), steps))
  {
    if steps != [] {
      RunsAreWellFormed(now, steps[..|steps| - 1]);
      StepKeepsWellFormed(Run(Initial(now), steps[..|steps| - 1]), steps[|steps| - 1]);
    }
  }

  lemma StepKeepsWellFormed(s: World, step: Step)
    requires WellFormed(s)
    ensures WellFormed(Apply(s, step))
  {
  }

  lemma {:induction false} Unused(ids: set<nat>) returns (n: nat)
    ensures forall id :: id in ids ==> id < n
  {
    if ids == {} {
      n := 0;
    } else {
      var id :| id in ids;
      var m := Unused(ids - {id});
      n := if id < m then m else id + 1;
      forall other | other in ids ensures other < n {
        assert other == id || other in ids - {id};
      }
    }
  }

  lemma RunTwo(s: World, a: Step, b: Step)
    ensures Run(s, [a, b]) == Apply(Apply(s, a), b)
  {
    RunOne(s, a);
    RunMore(s, [a], b);
    assert [a] + [b] == [a, b];
  }

  lemma {:induction false} RunAppend(s: World, a: seq<Step>, b: seq<Step>)
    ensures Run(s, a + b) == Run(Run(s, a), b)
  {
    if b == [] {
      assert a + b == a;
    } else {
      assert (a + b)[..|a + b| - 1] == a + b[..|b| - 1];
      RunAppend(s, a, b[..|b| - 1]);
    }
  }

  /** Clearing the agent, then asking anew. */
  function ClearAndAsk(q: nat, n: nat, agent: string): seq<Step> {
    [DropStatus(q), DropErrors(q)] + [Count(n, agent, 0), Decide(n, 0)]
  }

  lemma CleanAgentIsQuoted(s: World, n: nat, agent: string)
    requires n !in s.quotes && agent !in s.status && agent !in s.errors && s.clock >= 0
    ensures var t := Run(s, [Count(n, agent, 0), Decide(n, 0)]);
      n in t.quotes && t.quotes[n] == Quoted(agent, 100, s.clock)
  {
    RunTwo(s, Count(n, agent, 0), Decide(n, 0));
    assert Apply(s, Count(n, agent, 0)) == s.(quotes := s.quotes[n := Counted(agent, ErrorHistory(0, 0, 24))]);
  }

  /** A pending rehabilitation clears the agent in two steps, and the next quote is at the base rate. */
  lemma ClearedAgentIsQuoted(s: World, q: nat, n: nat, agent: string)
    requires q in s.quotes && StaleRehabilitation(s.quotes[q], agent) && n !in s.quotes && s.clock >= 0
    ensures var t := Run(s, ClearAndAsk(q, n, agent));
      n in t.quotes && t.quotes[n] == Quoted(agent, 100, s.clock)
  {
    RunAppend(s, [DropStatus(q), DropErrors(q)], [Count(n, agent, 0), Decide(n, 0)]);
    RunTwo(s, DropStatus(q), DropErrors(q));
    CleanAgentIsQuoted(Run(s, [DropStatus(q), DropErrors(q)]), n, agent);
  }

  lemma QuietClearAndAsk(q: nat, n: nat, agent: string, id: nat)
    ensures AllQuiet(ClearAndAsk(q, n, agent), agent) && Undisturbed(ClearAndAsk(q, n, agent), agent)
    ensures WriteBlock(id) !in ClearAndAsk(q, n, agent)
  {
  }

  /** A quote that is dropping the status, or counted and will: it lifts the block once written. */
  lemma RehabilitationBreaksWritten(s: World, id: nat, floor: int, q: nat, n: nat) returns (between: seq<Step>, rest: seq<Step>)
    requires AtSixthError(s, id, floor) && WellFormed(s) && q in s.quotes && n !in s.quotes
    requires Rehabilitating(s, s.quotes[q], s.records[id].agent) && !s.quotes[q].DroppingErrors?
    ensures Course(s, id, between, rest) && !ObeysAlong(s, id, between, rest, n, floor)
  {
    var agent, pushed := s.records[id].agent, Apply(s, Push(id));
    between := if s.quotes[q].Counted? then [Decide(q, 0)] else [];
    rest := ClearAndAsk(q, n, agent);
    RunOne(pushed, Decide(q, 0));
    var pending := Run(pushed, between);
    assert pending.quotes[q].DroppingStatus? && pending.clock == s.clock && n !in pending.quotes;
    QuietClearAndAsk(q, n, agent, id);
    ClearedAgentIsQuoted(Apply(pending, WriteBlock(id)), q, n, agent);
  }

  /** A quote that is dropping the errors of an agent not blocked: the next one
      goes out before the block is written. */
  lemma RehabilitationBreaksPending(s: World, id: nat, floor: int, q: nat, n: nat) returns (between: seq<Step>)
    requires AtSixthError(s, id, floor) && WellFormed(s) && q in s.quotes && n !in s.quotes
    requires Rehabilitating(s, s.quotes[q], s.records[id].agent) && s.quotes[q].DroppingErrors?
    ensures Course(s, id, between, []) && !ObeysAlong(s, id, between, [], n, floor)
  {
    var agent, pushed := s.records[id].agent, Apply(s, Push(id));
    var cleared := Apply(pushed, DropErrors(q));
    RunOne(pushed, DropErrors(q));
    var asking := UnblockedAgentIsQuoted(cleared, n, agent);
    between := [DropErrors(q)] + asking;
    RunAppend(pushed, [DropErrors(q)], asking);
  }

  lemma UnblockedAgentIsAsked(s: World, n: nat, agent: string)
    requires n !in s.quotes && agent !in s.errors && StatusOf(s, agent).blockedUntil <= s.clock
    ensures var t := Run(s, [Count(n, agent, 0), Decide(n, 0)]);
      && t.clock == s.clock && n in t.quotes && t.quotes[n].agent == agent
      && (t.quotes[n].DroppingStatus? || t.quotes[n].Quoted?) && t.quotes[n].at == s.clock
  {
    RunTwo(s, Count(n, agent, 0), Decide(n, 0));
    var a := Apply(s, Count(n, agent, 0));
    assert a == s.(quotes := s.quotes[n := Counted(agent, ErrorHistory(0, 0, 24))]);
    assert Apply(a, Decide(n, 0)).quotes[n] == Decided(agent, ErrorHistory(0, 0, 24), StatusOf(s, agent), s.clock, s.clock);
  }

  /** An agent without errors that is not blocked gets a quote at once. */
  lemma UnblockedAgentIsQuoted(s: World, n: nat, agent: string) returns (steps: seq<Step>)
    requires n !in s.quotes && agent !in s.errors && StatusOf(s, agent).blockedUntil <= s.clock
    ensures Undisturbed(steps, agent) && forall id :: WriteBlock(id) !in steps
    ensures var t := Run(s, steps);
      t.clock == s.clock && n in t.quotes && t.quotes[n].agent == agent && t.quotes[n].Quoted? && t.quotes[n].at == s.clock
  {
    steps := [Count(n, agent, 0), Decide(n, 0)];
    var asked := Run(s, steps);
    UnblockedAgentIsAsked(s, n, agent);
    if asked.quotes[n].DroppingStatus? {
      RunAppend(s, steps, [DropStatus(n), DropErrors(n)]);
      RunTwo(asked, DropStatus(n), DropErrors(n));
      steps := steps + [DropStatus(n), DropErrors(n)];
    }
  }

  /** The whole promise. In any reachable state an error is about to be recorded
      with five others in its day. Then no quote that begins after its push goes
      out against the block of `floor`, neither before the block is written,
      taken as the same instant, nor after, until an
      administrator resets the agent: exactly when no quote is rehabilitating
      the agent. Here `floor` is the earliest time of the agent's recording calls
      still running, the error's own when there is no older one. */
  lemma SixthErrorProtectsIff(now: int, steps: seq<Step>, id: nat, floor: int)
    requires AtSixthError(Run(Initial(now), steps), id, floor)
    ensures var s := Run(Initial(now), steps);
      Protected(s, id, floor) <==> NoneRehabilitating(s, s.records[id].agent)
  {
    var s := Run(Initial(now), steps);
    PruningIsInvisible(now, steps);
    RunsAreWellFormed(now, steps);
    if NoneRehabilitating(s, s.records[id].agent) {
      forall between, rest, q | Course(s, id, between, rest) && q !in s.quotes
        ensures ObeysAlong(s, id, between, rest, q, floor)
      {
        PushProtects(s, id, floor, between, rest, q);
      }
    } else {
      var q :| q in s.quotes && Rehabilitating(s, s.quotes[q], s.records[id].agent);
      var n := Unused(s.quotes.Keys);
      if s.quotes[q].DroppingErrors? {
        var between := RehabilitationBreaksPending(s, id, floor, q, n);
      } else {
        var between, rest := RehabilitationBreaksWritten(s, id, floor, q, n);
      }
    }
  }
}
