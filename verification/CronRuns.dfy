/**
 * The cron scheduler in operation: every interleaving of ticks, finishing and crashing fires, enables,
 * disables, additions and removals, with a clock that never goes back.
 *
 * A fire is started by a tick; its wrapper (`crates/kernel/src/daemon.rs`) records an outcome and then
 * clears the guard. A fire can panic before or after its outcome was recorded; nothing around it catches
 * the panic, so the guard is not cleared.
 */
module CronRuns {
  import opened Common
  import opened Cron

  datatype Fire = Fire(schedule: Schedule, oneShot: bool)

  datatype Event = Ticking(now: int, due: map<JobId, Fire>) | Enabling(id: JobId)

  /** `firing` and `recorded` hold one entry for every fire that is under way, before and after its outcome. */
  datatype Sys = Sys(jobs: Jobs, max: nat, clock: int, firing: multiset<JobId>, recorded: multiset<JobId>,
                     crashed: set<JobId>, used: set<JobId>, log: seq<Event>)

  datatype Outcome = Success | Failure(message: string) | Removal

  datatype Step =
    | Add(job: Job, oneShot: bool, t0: int, t1: int, t2: int)
    | SetEnabled(id: JobId, enabled: bool, t1: int, t2: int)
    | Remove(id: JobId)
    | RemoveAgent(agent: AgentId)
    | DoTick(now: int)
    | Finish(id: JobId, outcome: Outcome, now: int)
    | Clear(id: JobId)
    | Crash(id: JobId)

  function Initial(max: nat, now: int): Sys {
    Sys(map[], max, now, multiset{}, multiset{}, {}, {}, [])
  }

  predicate Possible(s: Sys, step: Step) {
    match step
    case Add(j, _, t0, t1, t2) => j.id !in s.used && s.clock <= t0 <= t1 <= t2
    case SetEnabled(_, _, t1, t2) => s.clock <= t1 <= t2
    case DoTick(now) => s.clock <= now
    case Finish(id, _, now) => id in s.firing && s.clock <= now
    case Clear(id) => id in s.recorded
    case Crash(id) => id in s.firing || id in s.recorded
    case _ => true
  }

  function Fires(jobs: Jobs, now: int): map<JobId, Fire> {
    map k | k in DueIds(jobs, now) :: Fire(jobs[k].job.schedule, jobs[k].oneShot)
  }

  function Next(cal: Calendar, s: Sys, step: Step): Sys {
    if !Possible(s, step) then s
    else
      match step
      case Add(j, oneShot, t0, t1, t2) =>
        var r := Added(cal, s.max, s.jobs, j, oneShot, t0, t1, t2);
        if r.0.Ok? then s.(jobs := r.1, used := s.used + {j.id}, clock := t2) else s.(clock := t2)
      case SetEnabled(id, enabled, t1, t2) =>
        if id !in s.jobs then s
        else s.(jobs := s.jobs[id := WithEnabled(cal, s.jobs[id], enabled, t1, t2)], clock := t2,
                log := if enabled then s.log + [Enabling(id)] else s.log)
      case Remove(id) => s.(jobs := s.jobs - {id})
      case RemoveAgent(agent) => s.(jobs := s.jobs - OfAgent(s.jobs, agent))
      case DoTick(now) =>
        s.(jobs := Tick(cal, s.jobs, now), clock := now, firing := s.firing + multiset(DueIds(s.jobs, now)),
           log := s.log + [Ticking(now, Fires(s.jobs, now))])
      case Finish(id, outcome, now) =>
        s.(jobs := match outcome
                   case Success => Succeed(s.jobs, id, now)
                   case Failure(message) => Fail(cal, s.jobs, id, now, message)
                   case Removal => s.jobs - {id},
           clock := now, firing := s.firing - multiset{id}, recorded := s.recorded + multiset{id})
      case Clear(id) => s.(jobs := Cleared(s.jobs, id), recorded := s.recorded - multiset{id})
      case Crash(id) =>
        if id in s.firing then s.(firing := s.firing - multiset{id}, crashed := s.crashed + {id})
        else s.(recorded := s.recorded - multiset{id}, crashed := s.crashed + {id})
  }

  function Run(cal: Calendar, s: Sys, steps: seq<Step>): Sys {
    if steps == [] then s else Next(cal, Run(cal, s, steps[..|steps| - 1]), steps[|steps| - 1])
  }

  /** What is assumed of the calendar: it never answers with a time before the one it was asked about. */
  ghost predicate Sane(cal: Calendar) {
    forall expr, tz, base :: cal(expr, tz, base).Some? ==> cal(expr, tz, base).value >= base
  }

  // ---------------------------------------------------------------------------------------------
  // The log of fires
  // ---------------------------------------------------------------------------------------------

  predicate Fired(log: seq<Event>, i: nat, k: JobId) {
    i < |log| && log[i].Ticking? && k in log[i].due
  }

  ghost predicate EnabledBetween(log: seq<Event>, i: nat, j: nat, k: JobId) {
    exists e :: i < e < j && e < |log| && log[e] == Enabling(k)
  }

  /** What two fires of the same job owe each other. */
  ghost predicate Apart(log: seq<Event>, i: nat, j: nat, k: JobId)
    requires Fired(log, i, k) && Fired(log, j, k)
  {
    var a, b := log[i], log[j];
    && a.due[k] == b.due[k] && !b.due[k].oneShot
    && (b.due[k].schedule.Every? ==> b.now >= a.now + b.due[k].schedule.secs * SECOND)
    && (b.due[k].schedule.At? ==> EnabledBetween(log, i, j, k) || b.now >= a.now + CENTURY)
  }

  ghost predicate AllApart(log: seq<Event>) {
    forall i: nat, j: nat, k {:trigger Fired(log, i, k), Fired(log, j, k)} ::
      i < j && Fired(log, i, k) && Fired(log, j, k) ==> Apart(log, i, j, k)
  }

  // ---------------------------------------------------------------------------------------------
  // The invariant
  // ---------------------------------------------------------------------------------------------

  function Flying(s: Sys, k: JobId): nat {
    s.firing[k] + s.recorded[k]
  }

  /** What an earlier fire of a job that is still listed says about its next one. */
  ghost predicate FireKept(s: Sys, k: JobId, i: nat)
    requires k in s.jobs && Fired(s.log, i, k)
  {
    var m, e := s.jobs[k], s.log[i];
    && e.due[k] == Fire(m.job.schedule, m.oneShot)
    && (m.oneShot ==> k in s.firing || k in s.crashed)
    && (m.job.schedule.At? ==> m.job.schedule.at <= e.now)
    && (m.job.schedule.Every? && m.job.nextRun.Some? ==> m.job.nextRun.value >= e.now + m.job.schedule.secs * SECOND)
    && (m.job.schedule.At? && m.job.nextRun.Some? ==>
          EnabledBetween(s.log, i, |s.log|, k) || m.job.nextRun.value >= e.now + CENTURY)
  }

  ghost predicate JobOk(s: Sys, k: JobId) {
    k in s.jobs &&
    var m := s.jobs[k];
    && m.job.id == k && k in s.used
    && (m.running <==> Flying(s, k) == 1 || k in s.crashed)
    && (m.job.enabled ==> m.errors < MAX_CONSECUTIVE_ERRORS)
    && (m.job.schedule.Every? ==> m.job.schedule.secs >= MIN_EVERY_SECS)
    && (m.job.schedule.At? && m.job.nextRun.Some? ==> m.job.nextRun.value >= m.job.schedule.at)
    && (forall i: nat {:trigger Fired(s.log, i, k)} :: Fired(s.log, i, k) ==> FireKept(s, k, i))
  }

  ghost predicate FlightOk(s: Sys, k: JobId) {
    && Flying(s, k) <= 1
    && (k in s.crashed ==> Flying(s, k) == 0)
    && (Flying(s, k) > 0 || k in s.crashed || (exists i: nat :: Fired(s.log, i, k)) ==> k in s.used)
  }

  ghost predicate Inv(s: Sys) {
    && (forall k {:trigger JobOk(s, k)} :: k in s.jobs ==> JobOk(s, k))
    && (forall k {:trigger FlightOk(s, k)} :: FlightOk(s, k))
    && (forall i: nat {:trigger s.log[i]} :: i < |s.log| && s.log[i].Ticking? ==> s.log[i].now <= s.clock)
    && AllApart(s.log)
  }

  lemma EnabledLater(log: seq<Event>, log': seq<Event>, i: nat, k: JobId)
    requires log <= log' && EnabledBetween(log, i, |log|, k)
    ensures EnabledBetween(log', i, |log'|, k)
  {
    var e :| i < e < |log| && log[e] == Enabling(k);
    assert log'[e] == Enabling(k);
  }

  lemma FiredEarlier(log: seq<Event>, e: Event, i: nat, k: JobId)
    requires e.Ticking? ==> k !in e.due
    ensures Fired(log + [e], i, k) <==> Fired(log, i, k)
    ensures Fired(log, i, k) ==> (log + [e])[i] == log[i]
  {
  }

  /** A job that a step leaves alone keeps what is known about it. */
  lemma Untouched(s: Sys, s': Sys, k: JobId)
    requires JobOk(s, k) && k in s'.jobs && s'.jobs[k] == s.jobs[k]
    requires s.used <= s'.used && s'.firing[k] == s.firing[k] && s'.recorded[k] == s.recorded[k]
             && (k in s'.crashed <==> k in s.crashed)
    requires s'.log == s.log
             || (|s'.log| == |s.log| + 1 && s'.log == s.log + [s'.log[|s.log|]]
                 && (s'.log[|s.log|].Ticking? ==> k !in s'.log[|s.log|].due))
    ensures JobOk(s', k)
  {
    forall i: nat | Fired(s'.log, i, k) ensures FireKept(s', k, i) {
      if s'.log != s.log {
        FiredEarlier(s.log, s'.log[|s.log|], i, k);
      }
      assert Fired(s.log, i, k);
      assert FireKept(s, k, i);
      if EnabledBetween(s.log, i, |s.log|, k) {
        EnabledLater(s.log, s'.log, i, k);
      }
    }
  }

  lemma AddedJobOk(cal: Calendar, s: Sys, step: Step)
    requires Inv(s) && Possible(s, step) && step.Add? && step.job.id in Next(cal, s, step).jobs
    ensures JobOk(Next(cal, s, step), step.job.id)
  {
    var s', k := Next(cal, s, step), step.job.id;
    assert FlightOk(s, k);
    assert k in s.jobs ==> JobOk(s, k);
    assert forall i: nat :: !Fired(s'.log, i, k);
  }

  lemma EnabledJobOk(cal: Calendar, s: Sys, id: JobId, enabled: bool, t1: int, t2: int)
    requires Inv(s) && s.clock <= t1 <= t2 && id in s.jobs
    ensures JobOk(Next(cal, s, SetEnabled(id, enabled, t1, t2)), id)
  {
    var s' := Next(cal, s, SetEnabled(id, enabled, t1, t2));
    assert JobOk(s, id);
    forall i: nat | Fired(s'.log, i, id) ensures FireKept(s', id, i) {
      FiredEarlier(s.log, Enabling(id), i, id);
      assert Fired(s.log, i, id);
      assert FireKept(s, id, i);
      assert enabled ==> s'.log[|s.log|] == Enabling(id);
    }
  }

  lemma TickedJobOk(cal: Calendar, s: Sys, now: int, k: JobId)
    requires Inv(s) && s.clock <= now && k in s.jobs
    ensures JobOk(Next(cal, s, DoTick(now)), k)
  {
    var s' := Next(cal, s, DoTick(now));
    var m, m', n := s.jobs[k], s'.jobs[k], |s.log|;
    assert JobOk(s, k) && FlightOk(s, k);
    assert s'.log[n] == Ticking(now, Fires(s.jobs, now));
    forall i: nat | Fired(s'.log, i, k) ensures FireKept(s', k, i) {
      if i < n {
        assert s'.log[i] == s.log[i];
        assert Fired(s.log, i, k);
        assert FireKept(s, k, i);
        if EnabledBetween(s.log, i, n, k) {
          EnabledLater(s.log, s'.log, i, k);
        }
      }
    }
  }

  lemma FinishedJobOk(cal: Calendar, s: Sys, id: JobId, outcome: Outcome, now: int)
    requires Inv(s) && id in s.firing && s.clock <= now && id in Next(cal, s, Finish(id, outcome, now)).jobs
    ensures JobOk(Next(cal, s, Finish(id, outcome, now)), id)
  {
    var s' := Next(cal, s, Finish(id, outcome, now));
    assert JobOk(s, id) && FlightOk(s, id);
    forall i: nat | Fired(s'.log, i, id) ensures FireKept(s', id, i) {
      assert Fired(s.log, i, id);
      assert FireKept(s, id, i);
    }
  }

  lemma ClearedJobOk(cal: Calendar, s: Sys, id: JobId)
    requires Inv(s) && id in s.recorded && id in s.jobs
    ensures JobOk(Next(cal, s, Clear(id)), id)
  {
    var s' := Next(cal, s, Clear(id));
    assert JobOk(s, id) && FlightOk(s, id);
    forall i: nat | Fired(s'.log, i, id) ensures FireKept(s', id, i) {
      assert Fired(s.log, i, id);
      assert FireKept(s, id, i);
    }
  }

  lemma CrashedJobOk(cal: Calendar, s: Sys, id: JobId)
    requires Inv(s) && (id in s.firing || id in s.recorded) && id in s.jobs
    ensures JobOk(Next(cal, s, Crash(id)), id)
  {
    var s' := Next(cal, s, Crash(id));
    assert JobOk(s, id) && FlightOk(s, id);
    forall i: nat | Fired(s'.log, i, id) ensures FireKept(s', id, i) {
      assert Fired(s.log, i, id);
      assert FireKept(s, id, i);
    }
  }

  predicate Targets(step: Step, k: JobId) {
    match step
    case Add(j, _, _, _, _) => j.id == k
    case SetEnabled(id, _, _, _) => id == k
    case Finish(id, _, _) => id == k
    case Clear(id) => id == k
    case Crash(id) => id == k
    case DoTick(_) => true
    case _ => false
  }

  lemma AddKeepsOthers(cal: Calendar, max: nat, jobs: Jobs, j: Job, oneShot: bool, t0: int, t1: int, t2: int, k: JobId)
    requires k != j.id
    ensures var r := Added(cal, max, jobs, j, oneShot, t0, t1, t2).1;
            (k in r <==> k in jobs) && (k in r ==> r[k] == jobs[k])
  {
    hide Validate, InitialNextRun;
  }

  lemma OutcomeKeepsOthers(cal: Calendar, jobs: Jobs, id: JobId, now: int, message: string, k: JobId)
    requires k != id
    ensures (k in Succeed(jobs, id, now) <==> k in jobs) && (k in jobs ==> Succeed(jobs, id, now)[k] == jobs[k])
    ensures (k in Fail(cal, jobs, id, now, message) <==> k in jobs)
            && (k in jobs ==> Fail(cal, jobs, id, now, message)[k] == jobs[k])
    ensures (k in Cleared(jobs, id) <==> k in jobs) && (k in jobs ==> Cleared(jobs, id)[k] == jobs[k])
  {
    hide Failing;
  }

  lemma OthersUnchanged(cal: Calendar, s: Sys, step: Step, k: JobId)
    requires !Targets(step, k) && k in Next(cal, s, step).jobs
    ensures var s' := Next(cal, s, step);
            && k in s.jobs && s'.jobs[k] == s.jobs[k] && s.used <= s'.used
            && s'.firing[k] == s.firing[k] && s'.recorded[k] == s.recorded[k] && (k in s'.crashed <==> k in s.crashed)
            && (s'.log == s.log || (s'.log == s.log + [s'.log[|s.log|]] && !s'.log[|s.log|].Ticking?))
  {
    hide Next;
    JobUnchanged(cal, s, step, k);
    FlightUnchanged(cal, s, step, k);
  }

  lemma FinishUnchanged(cal: Calendar, s: Sys, id: JobId, outcome: Outcome, now: int, k: JobId)
    requires id != k && k in Next(cal, s, Finish(id, outcome, now)).jobs
    ensures k in s.jobs && Next(cal, s, Finish(id, outcome, now)).jobs[k] == s.jobs[k]
  {
    hide Succeed, Fail, Added, WithEnabled, Cleared, OfAgent, Tick, Fires, DueIds;
    OutcomeKeepsOthers(cal, s.jobs, id, now, if outcome.Failure? then outcome.message else "", k);
  }

  lemma AddUnchanged(cal: Calendar, s: Sys, step: Step, k: JobId)
    requires step.Add? && step.job.id != k && k in Next(cal, s, step).jobs
    ensures k in s.jobs && Next(cal, s, step).jobs[k] == s.jobs[k]
  {
    hide Succeed, Fail, Added, WithEnabled, Cleared, OfAgent, Tick, Fires, DueIds;
    AddKeepsOthers(cal, s.max, s.jobs, step.job, step.oneShot, step.t0, step.t1, step.t2, k);
  }

  lemma JobUnchanged(cal: Calendar, s: Sys, step: Step, k: JobId)
    requires !Targets(step, k) && k in Next(cal, s, step).jobs
    ensures k in s.jobs && Next(cal, s, step).jobs[k] == s.jobs[k]
  {
    hide Added, Succeed, Fail, WithEnabled, OfAgent, Tick, Fires, DueIds;
    if step.Add? {
      AddUnchanged(cal, s, step, k);
    } else if step.Finish? {
      FinishUnchanged(cal, s, step.id, step.outcome, step.now, k);
    }
  }

  lemma FlightUnchanged(cal: Calendar, s: Sys, step: Step, k: JobId)
    requires !Targets(step, k)
    ensures var s' := Next(cal, s, step);
            && s.used <= s'.used
            && s'.firing[k] == s.firing[k] && s'.recorded[k] == s.recorded[k] && (k in s'.crashed <==> k in s.crashed)
            && (s'.log == s.log || (s'.log == s.log + [s'.log[|s.log|]] && !s'.log[|s.log|].Ticking?))
  {
    hide *;
    LogUnchanged(cal, s, step, k);
    FlightsSame(cal, s, step, k);
  }

  lemma FlightsSame(cal: Calendar, s: Sys, step: Step, k: JobId)
    requires !Targets(step, k)
    ensures var s' := Next(cal, s, step);
            && s.used <= s'.used
            && s'.firing[k] == s.firing[k] && s'.recorded[k] == s.recorded[k] && (k in s'.crashed <==> k in s.crashed)
  {
    hide Added, Succeed, Fail, Cleared, WithEnabled, OfAgent, Tick, Fires, DueIds, Possible;
  }

  lemma LogUnchanged(cal: Calendar, s: Sys, step: Step, k: JobId)
    requires !Targets(step, k)
    ensures var s' := Next(cal, s, step);
            s'.log == s.log || (s'.log == s.log + [s'.log[|s.log|]] && !s'.log[|s.log|].Ticking?)
  {
    hide Added, Succeed, Fail, Cleared, WithEnabled, OfAgent, Tick, Fires, DueIds, Possible;
  }

  lemma JobsKept(cal: Calendar, s: Sys, step: Step, k: JobId)
    requires Inv(s) && k in Next(cal, s, step).jobs
    ensures JobOk(Next(cal, s, step), k)
  {
    hide JobOk, Inv, Added, WithEnabled, Succeed, Fail, Cleared, Fires;
    var s' := Next(cal, s, step);
    if k in s.jobs {
      ListedJobOk(s, k);
    }
    if Possible(s, step) {
      if !Targets(step, k) {
        OthersUnchanged(cal, s, step, k);
        Untouched(s, s', k);
      } else if step.Add? {
        AddedJobOk(cal, s, step);
      } else {
        ChangedJobOk(cal, s, step, k);
      }
    }
  }

  lemma ChangedJobOk(cal: Calendar, s: Sys, step: Step, k: JobId)
    requires Inv(s) && Possible(s, step) && Targets(step, k) && !step.Add? && k in Next(cal, s, step).jobs
    ensures JobOk(Next(cal, s, step), k)
  {
    hide JobOk, Inv;
    match step
    case SetEnabled(id, enabled, t1, t2) => EnabledJobOk(cal, s, id, enabled, t1, t2);
    case DoTick(now) => TickedJobOk(cal, s, now, k);
    case Finish(id, outcome, now) => FinishedJobOk(cal, s, id, outcome, now);
    case Clear(id) => ClearedJobOk(cal, s, id);
    case Crash(id) => CrashedJobOk(cal, s, id);
    case _ =>
  }

  lemma GuardOf(s: Sys, k: JobId)
    requires Inv(s) && k in s.jobs
    ensures k in s.used && (s.jobs[k].running <==> Flying(s, k) == 1 || k in s.crashed)
  {
    assert JobOk(s, k);
  }

  lemma FlightCounts(cal: Calendar, s: Sys, step: Step, k: JobId)
    requires FlightOk(s, k) && (k in s.jobs ==> (s.jobs[k].running <==> Flying(s, k) == 1 || k in s.crashed))
    ensures var s' := Next(cal, s, step);
            && Flying(s', k) <= 1 && (k in s'.crashed ==> Flying(s', k) == 0)
            && (Flying(s', k) > 0 || k in s'.crashed ==> Flying(s, k) > 0 || k in s.crashed || k in s.jobs)
            && s.used <= s'.used
  {
    hide Added, WithEnabled, Succeed, Fail, Cleared, Tick, Fires;
  }

  lemma FlightsKept(cal: Calendar, s: Sys, step: Step, k: JobId)
    requires Inv(s)
    ensures FlightOk(Next(cal, s, step), k)
  {
    hide AllApart, JobOk;
    var s' := Next(cal, s, step);
    assert FlightOk(s, k);
    if k in s.jobs {
      GuardOf(s, k);
    }
    FlightCounts(cal, s, step, k);
    forall i: nat | Fired(s'.log, i, k) ensures k in s'.used {
      NewFire(cal, s, step, k, i);
    }
  }

  lemma NewFire(cal: Calendar, s: Sys, step: Step, k: JobId, i: nat)
    requires Fired(Next(cal, s, step).log, i, k)
    ensures Fired(s.log, i, k) || k in s.jobs
  {
    hide Added, WithEnabled, Succeed, Fail, Cleared, Tick;
  }

  lemma FiresApart(cal: Calendar, s: Sys, step: Step)
    requires Inv(s)
    ensures AllApart(Next(cal, s, step).log)
  {
    var s' := Next(cal, s, step);
    var n := |s.log|;
    forall i: nat, j: nat, k | i < j && Fired(s'.log, i, k) && Fired(s'.log, j, k) ensures Apart(s'.log, i, j, k) {
      assert i < n && Fired(s.log, i, k);
      if j < n {
        assert Fired(s.log, j, k);
        assert Apart(s.log, i, j, k);
        BetweenKept(s.log, s'.log, i, j, k);
      } else {
        assert JobOk(s, k) && FireKept(s, k, i) && FlightOk(s, k);
        BetweenKept(s.log, s'.log, i, n, k);
      }
    }
  }

  lemma BetweenKept(log: seq<Event>, log': seq<Event>, i: nat, j: nat, k: JobId)
    requires log <= log' && j <= |log|
    ensures EnabledBetween(log, i, j, k) ==> EnabledBetween(log', i, j, k)
  {
    if EnabledBetween(log, i, j, k) {
      var e :| i < e < j && e < |log| && log[e] == Enabling(k);
      assert log'[e] == Enabling(k);
    }
  }

  lemma NextKeepsInv(cal: Calendar, s: Sys, step: Step)
    requires Inv(s)
    ensures Inv(Next(cal, s, step)) && s.clock <= Next(cal, s, step).clock
  {
    hide JobOk, FlightOk, AllApart;
    var s' := Next(cal, s, step);
    forall k | k in s'.jobs ensures JobOk(s', k) { JobsKept(cal, s, step, k); }
    forall k ensures FlightOk(s', k) { FlightsKept(cal, s, step, k); }
    FiresApart(cal, s, step);
  }

  lemma {:induction false} RunKeepsInv(cal: Calendar, max: nat, now: int, steps: seq<Step>)
    ensures Inv(Run(cal, Initial(max, now), steps))
  {
    if steps != [] {
      RunKeepsInv(cal, max, now, steps[..|steps| - 1]);
      NextKeepsInv(cal, Run(cal, Initial(max, now), steps[..|steps| - 1]), steps[|steps| - 1]);
    }
  }

  // ---------------------------------------------------------------------------------------------
  // What holds in every run
  // ---------------------------------------------------------------------------------------------

  /** A job has at most one fire under way, and its guard is up exactly then, or after a fire that panicked. */
  lemma GuardMeansInFlight(cal: Calendar, max: nat, now: int, steps: seq<Step>, k: JobId)
    ensures var s := Run(cal, Initial(max, now), steps);
            && Flying(s, k) <= 1
            && (k in s.jobs ==> (s.jobs[k].running <==> Flying(s, k) == 1 || k in s.crashed))
  {
    RunKeepsInv(cal, max, now, steps);
    var s := Run(cal, Initial(max, now), steps);
    assert FlightOk(s, k);
    assert k in s.jobs ==> JobOk(s, k);
  }

  /**
   * Two fires of one job: it is not one-shot, an `Every` job has waited its interval, and an `At` job has
   * been re-enabled in between or a century has passed.
   */
  lemma FiresAreApart(cal: Calendar, max: nat, now: int, steps: seq<Step>, i: nat, j: nat, k: JobId)
    requires var log := Run(cal, Initial(max, now), steps).log; i < j && Fired(log, i, k) && Fired(log, j, k)
    ensures var log := Run(cal, Initial(max, now), steps).log;
            var a, b := log[i], log[j];
            && a.due[k] == b.due[k] && !b.due[k].oneShot
            && (b.due[k].schedule.Every? ==> b.now - a.now >= b.due[k].schedule.secs * SECOND)
            && (b.due[k].schedule.At? ==> EnabledBetween(log, i, j, k) || b.now - a.now >= CENTURY)
  {
    RunKeepsInv(cal, max, now, steps);
    assert Apart(Run(cal, Initial(max, now), steps).log, i, j, k);
  }

  lemma NextRunIsLater(cal: Calendar, schedule: Schedule, now: int)
    requires Sane(cal) && (schedule.Every? ==> schedule.secs >= MIN_EVERY_SECS)
    ensures NextRunAfter(cal, schedule, now) > now
  {
  }

  /** After a tick no enabled job is still due, so the same slot is never found twice. */
  lemma NothingDueAfterTick(cal: Calendar, max: nat, start: int, steps: seq<Step>, now: int, k: JobId)
    requires Sane(cal) && Run(cal, Initial(max, start), steps).clock <= now
    ensures var s' := Next(cal, Run(cal, Initial(max, start), steps), DoTick(now));
            k in s'.jobs ==> !Slot(s'.jobs[k], now)
  {
    hide Run, NextRunAfter, Inv, Sane;
    RunKeepsInv(cal, max, start, steps);
    var s := Run(cal, Initial(max, start), steps);
    if k in s.jobs {
      ListedJobOk(s, k);
      NextRunIsLater(cal, s.jobs[k].job.schedule, now);
    }
  }

  lemma ListedJobOk(s: Sys, k: JobId)
    requires Inv(s) && k in s.jobs
    ensures JobOk(s, k)
  {
  }

  lemma EnabledJobsHaveFewErrors(cal: Calendar, max: nat, now: int, steps: seq<Step>, k: JobId)
    ensures var s := Run(cal, Initial(max, now), steps);
            k in s.jobs && s.jobs[k].job.enabled ==> s.jobs[k].errors < MAX_CONSECUTIVE_ERRORS
  {
    RunKeepsInv(cal, max, now, steps);
    var s := Run(cal, Initial(max, now), steps);
    assert k in s.jobs ==> JobOk(s, k);
  }

  /**
   * A tick that finds a job due starts it unless its previous fire is still under way, and moves the slot on
   * either way.
   */
  lemma TickFiresExactly(cal: Calendar, max: nat, start: int, steps: seq<Step>, now: int, k: JobId)
    requires Run(cal, Initial(max, start), steps).clock <= now
    ensures var s := Run(cal, Initial(max, start), steps);
            var s' := Next(cal, s, DoTick(now));
            && |s'.log| == |s.log| + 1 && s'.jobs.Keys == s.jobs.Keys
            && (Fired(s'.log, |s.log|, k)
                <==> k in s.jobs && Slot(s.jobs[k], now) && Flying(s, k) == 0 && k !in s.crashed)
            && (k in s.jobs ==>
                  s'.jobs[k].job.nextRun
                  == if Slot(s.jobs[k], now) then Some(NextRunAfter(cal, s.jobs[k].job.schedule, now))
                    else s.jobs[k].job.nextRun)
  {
    RunKeepsInv(cal, max, start, steps);
    var s := Run(cal, Initial(max, start), steps);
    assert k in s.jobs ==> JobOk(s, k);
    assert FlightOk(s, k);
  }

  /** Whatever happens after a fire panicked, its job is never fired again: nothing lowers the guard. */
  lemma {:induction false} PanicStrandsJob(cal: Calendar, s: Sys, steps: seq<Step>, id: JobId, i: nat)
    requires Inv(s) && id in s.crashed && i >= |s.log|
    ensures var s' := Run(cal, s, steps);
            Inv(s') && id in s'.crashed && s.log <= s'.log && !Fired(s'.log, i, id)
  {
    if steps != [] {
      var s1, step := Run(cal, s, steps[..|steps| - 1]), steps[|steps| - 1];
      PanicStrandsJob(cal, s, steps[..|steps| - 1], id, i);
      NextKeepsInv(cal, s1, step);
      StrandedStep(cal, s1, step, id, i);
    }
  }

  lemma StrandedStep(cal: Calendar, s: Sys, step: Step, id: JobId, i: nat)
    requires Inv(s) && id in s.crashed && !Fired(s.log, i, id)
    ensures var s' := Next(cal, s, step);
            id in s'.crashed && s.log <= s'.log && !Fired(s'.log, i, id)
  {
    assert id in s.jobs ==> JobOk(s, id);
    var s' := Next(cal, s, step);
    if i < |s.log| {
      assert s'.log[i] == s.log[i];
    }
  }

  const LOST := Job(7, 1, Every(60), true, None, None, true, true, true)

  /** The state after an `Every` job was added, fired once by a tick, and panicked. */
  function AfterPanic(cal: Calendar): Sys {
    Next(cal, Next(cal, Next(cal, Initial(10, 0), Add(LOST, false, 0, 0, 0)), DoTick(60 * SECOND)), Crash(7))
  }

  lemma AfterAdd(cal: Calendar)
    ensures Next(cal, Initial(10, 0), Add(LOST, false, 0, 0, 0))
         == Sys(map[7 := Meta(LOST.(nextRun := Some(60 * SECOND)), false, None, 0, false)], 10, 0, multiset{},
                multiset{}, {}, {7}, [])
  {
    assert OfAgent(map[], 1) == {};
    assert Added(cal, 10, map[], LOST, false, 0, 0, 0).0.Ok?;
  }

  lemma AfterTick(cal: Calendar, s: Sys)
    requires s.jobs == map[7 := Meta(LOST.(nextRun := Some(60 * SECOND)), false, None, 0, false)] && s.clock == 0
             && s.log == []
    ensures var s' := Next(cal, s, DoTick(60 * SECOND));
            Fired(s'.log, 0, 7) && |s'.log| == 1 && 7 in s'.jobs && s'.jobs[7].job.enabled && 7 in s'.firing
  {
    assert Due(s.jobs[7], 60 * SECOND);
    assert DueIds(s.jobs, 60 * SECOND) == {7};
  }

  lemma AfterPanicState(cal: Calendar)
    ensures var s := AfterPanic(cal);
            && Fired(s.log, 0, 7) && |s.log| == 1 && 7 in s.jobs && s.jobs[7].job.enabled && 7 in s.crashed && Inv(s)
  {
    hide Inv, Added, Tick, Fires, DueIds;
    var s0 := Initial(10, 0);
    InitialInv(10, 0);
    AfterAdd(cal);
    NextKeepsInv(cal, s0, Add(LOST, false, 0, 0, 0));
    var s1 := Next(cal, s0, Add(LOST, false, 0, 0, 0));
    AfterTick(cal, s1);
    NextKeepsInv(cal, s1, DoTick(60 * SECOND));
    NextKeepsInv(cal, Next(cal, s1, DoTick(60 * SECOND)), Crash(7));
  }

  lemma InitialInv(max: nat, now: int)
    ensures Inv(Initial(max, now))
  {
  }

  /** The guard comment promises recovery from a panic; one tick, one panic, and an enabled recurring job is lost. */
  lemma PanicLosesRecurringJob(cal: Calendar, steps: seq<Step>, i: nat)
    ensures var s := AfterPanic(cal);
            && Fired(s.log, 0, 7) && 7 in s.jobs && s.jobs[7].job.enabled
            && (i >= 1 ==> !Fired(Run(cal, s, steps).log, i, 7))
  {
    hide AfterPanic, Inv, Run;
    AfterPanicState(cal);
    if i >= 1 {
      PanicStrandsJob(cal, AfterPanic(cal), steps, 7, i);
    }
  }
}
