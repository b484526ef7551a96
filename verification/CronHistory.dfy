/**
 * The cron scheduler told by the history of each job: when it is listed, which clock reading and which answer of
 * the calendar its slot comes from, its errors in a row and whether it is on. The history is kept without the
 * functions that compute the scheduler's map.
 */
module CronHistory {
  import opened Common
  import opened Cron
  import opened CronRuns

  /** The clock readings from which the slot was computed: two when the job was added or switched on, one later. */
  datatype Reading = Started(t1: int, t2: int) | Later(now: int)

  datatype History = History(job: Job, oneShot: bool, reading: Reading, errors: nat, on: bool, lastRun: Option<int>,
                             lastStatus: Option<Status>)

  /** What the calendar answers for a second past the reading, or an hour after the reading when it has no answer. */
  function CalendarTime(cal: Calendar, expr: string, tz: Option<string>, reading: int): int {
    var answer := cal(expr, tz, reading + 1_000_000_000);
    if answer.Some? then answer.value else reading + 3600 * 1_000_000_000
  }

  /** The documented time of the next fire. */
  function TimeFor(cal: Calendar, s: Schedule, r: Reading): int {
    var base := if r.Started? then r.t2 else r.now;
    match s
    case Expr(expr, tz) => CalendarTime(cal, expr, tz, base)
    case Every(secs) => base + secs * 1_000_000_000
    case At(at) =>
      if r.Started? && at <= r.t1 then base
      else if base < at then at
      else base + 36500 * 24 * 3600 * 1_000_000_000
  }

  /** The limits and checks a new job has to pass. */
  predicate Passes(s: Sys, j: Job, now: int) {
    && |s.jobs| < s.max && |set k | k in s.jobs && s.jobs[k].job.agent == j.agent| < 50
    && j.nameOk && j.bodyOk
    && match j.schedule
       case Every(secs) => 60 <= secs <= 24 * 3600
       case At(at) => now < at && (at - now) / 1_000_000_000 <= 365 * 24 * 3600
       case Expr(_, _) => j.exprOk
  }

  /** What one step means for a job that is listed. */
  function Turned(cal: Calendar, h: History, k: JobId, step: Step): Option<History> {
    match step
    case Add(_, _, _, _, _) => Some(h)
    case SetEnabled(id, enabled, t1, t2) =>
      if id != k then Some(h)
      else if enabled then Some(h.(on := true, errors := 0, reading := Started(t1, t2)))
      else Some(h.(on := false))
    case Remove(id) => if id == k then None else Some(h)
    case RemoveAgent(agent) => if h.job.agent == agent then None else Some(h)
    case DoTick(now) =>
      if h.on && TimeFor(cal, h.job.schedule, h.reading) <= now then Some(h.(reading := Later(now))) else Some(h)
    case Finish(id, outcome, now) =>
      if id != k then Some(h)
      else if outcome.Removal? || h.oneShot then None
      else (
        match outcome
        case Success => Some(h.(errors := 0, lastRun := Some(now), lastStatus := Some(Succeeded)))
        case Failure(message) =>
          var h1 := h.(errors := h.errors + 1, lastRun := Some(now), lastStatus := Some(Failed(message)));
          Some(if h1.errors >= 5 then h1.(on := false) else h1.(reading := Later(now)))
        case Removal => None
      )
    case Clear(_) => Some(h)
    case Crash(_) => Some(h)
  }

  /** What a possible step makes of the history. */
  function After(cal: Calendar, s: Sys, h: Option<History>, k: JobId, step: Step): Option<History> {
    if step.Add? && step.job.id == k && Passes(s, step.job, step.t0) then
      Some(History(step.job, step.oneShot, Started(step.t1, step.t2), 0, step.job.enabled, step.job.lastRun, None))
    else if h.None? then None
    else Turned(cal, h.value, k, step)
  }

  function HistoryOf(cal: Calendar, max: nat, start: int, steps: seq<Step>, k: JobId): Option<History> {
    if steps == [] then None
    else
      var front, step := steps[..|steps| - 1], steps[|steps| - 1];
      var s, h := Run(cal, Initial(max, start), front), HistoryOf(cal, max, start, front, k);
      if Possible(s, step) then After(cal, s, h, k, step) else h
  }

  /** The row of the job says what its history says. */
  ghost predicate Recorded(cal: Calendar, jobs: Jobs, k: JobId, h: Option<History>) {
    && (k in jobs <==> h.Some?)
    && (h.Some? ==>
          var m := jobs[k];
          && m.job == h.value.job.(enabled := h.value.on, lastRun := h.value.lastRun,
                                   nextRun := Some(TimeFor(cal, h.value.job.schedule, h.value.reading)))
          && m.oneShot == h.value.oneShot && m.errors == h.value.errors && m.lastStatus == h.value.lastStatus)
  }

  lemma NextRunIsTime(cal: Calendar, s: Schedule, t1: int, t2: int, now: int)
    requires t1 <= t2
    ensures NextRunAfter(cal, s, now) == TimeFor(cal, s, Later(now))
    ensures InitialNextRun(cal, s, t1, t2) == TimeFor(cal, s, Started(t1, t2))
  {
  }

  lemma AddRecords(cal: Calendar, s: Sys, j: Job, oneShot: bool, t0: int, t1: int, t2: int, k: JobId,
                   h: Option<History>)
    requires Recorded(cal, s.jobs, k, h) && t1 <= t2
    ensures var r := Added(cal, s.max, s.jobs, j, oneShot, t0, t1, t2);
            && (r.0.Ok? <==> Passes(s, j, t0))
            && Recorded(cal, r.1, k,
                        if j.id == k && Passes(s, j, t0)
                        then Some(History(j, oneShot, Started(t1, t2), 0, j.enabled, j.lastRun, None)) else h)
  {
    hide InitialNextRun, TimeFor;
    NextRunIsTime(cal, j.schedule, t1, t2, t2);
    assert OfAgent(s.jobs, j.agent) == set k | k in s.jobs && s.jobs[k].job.agent == j.agent;
    assert 24 * 3600 == MAX_EVERY_SECS;
  }

  /** A job that does not pass is refused for the first limit or check it fails, in this order. */
  lemma RefusedForTheFirstFault(cal: Calendar, s: Sys, j: Job, oneShot: bool, t0: int, t1: int, t2: int)
    ensures var r := Added(cal, s.max, s.jobs, j, oneShot, t0, t1, t2);
            var existing := |set k | k in s.jobs && s.jobs[k].job.agent == j.agent|;
            !Passes(s, j, t0) ==>
              && r.1 == s.jobs
              && r.0 == if |s.jobs| >= s.max then Err(GlobalLimit(s.max))
                        else if existing >= 50 then Err(AgentLimit(existing))
                        else if !j.nameOk then Err(InvalidName)
                        else if j.bodyOk || !Passes(s, j.(bodyOk := true), t0) then Err(InvalidSchedule)
                        else Err(InvalidBody)
  {
    hide InitialNextRun;
    assert OfAgent(s.jobs, j.agent) == set k | k in s.jobs && s.jobs[k].job.agent == j.agent;
    assert 24 * 3600 == MAX_EVERY_SECS;
  }

  lemma EnableRecords(cal: Calendar, jobs: Jobs, enabled: bool, t1: int, t2: int, k: JobId, h: Option<History>)
    requires Recorded(cal, jobs, k, h) && k in jobs && t1 <= t2
    ensures Recorded(cal, jobs[k := WithEnabled(cal, jobs[k], enabled, t1, t2)], k,
                     Turned(cal, h.value, k, SetEnabled(k, enabled, t1, t2)))
  {
    hide InitialNextRun, TimeFor;
    NextRunIsTime(cal, h.value.job.schedule, t1, t2, t2);
  }

  lemma TickRecords(cal: Calendar, jobs: Jobs, now: int, k: JobId, h: Option<History>)
    requires Recorded(cal, jobs, k, h) && k in jobs
    ensures Recorded(cal, Tick(cal, jobs, now), k, Turned(cal, h.value, k, DoTick(now)))
  {
    hide NextRunAfter, TimeFor;
    NextRunIsTime(cal, h.value.job.schedule, now, now, now);
  }

  lemma FinishRecords(cal: Calendar, jobs: Jobs, outcome: Outcome, now: int, k: JobId, h: Option<History>)
    requires Recorded(cal, jobs, k, h) && k in jobs
    ensures Recorded(cal, match outcome
                          case Success => Succeed(jobs, k, now)
                          case Failure(message) => Fail(cal, jobs, k, now, message)
                          case Removal => jobs - {k}, k, Turned(cal, h.value, k, Finish(k, outcome, now)))
  {
    hide NextRunAfter, TimeFor;
    NextRunIsTime(cal, h.value.job.schedule, now, now, now);
  }

  lemma Kept(cal: Calendar, jobs: Jobs, jobs': Jobs, k: JobId, h: Option<History>)
    requires Recorded(cal, jobs, k, h) && (k in jobs' <==> k in jobs)
    requires k in jobs ==>
               && jobs'[k].job == jobs[k].job && jobs'[k].oneShot == jobs[k].oneShot
               && jobs'[k].errors == jobs[k].errors
               && jobs'[k].lastStatus == jobs[k].lastStatus
    ensures Recorded(cal, jobs', k, h)
  {
    hide TimeFor;
  }

  lemma GoneIsNone(cal: Calendar, jobs: Jobs, k: JobId)
    requires k !in jobs
    ensures Recorded(cal, jobs, k, None)
  {
  }

  lemma StepRecords(cal: Calendar, s: Sys, step: Step, k: JobId, h: Option<History>)
    requires Recorded(cal, s.jobs, k, h) && Possible(s, step)
    ensures Recorded(cal, Next(cal, s, step).jobs, k, After(cal, s, h, k, step))
  {
    hide Recorded, Passes, TimeFor, Added, WithEnabled, Tick, Succeed, Fail, Cleared, Fires, DueIds;
    RecordedMeans(cal, s.jobs, k, h);
    match step
    case Add(j, oneShot, t0, t1, t2) => AddRecords(cal, s, j, oneShot, t0, t1, t2, k, h);
    case SetEnabled(id, enabled, t1, t2) =>
      if id == k && k in s.jobs {
        EnableRecords(cal, s.jobs, enabled, t1, t2, k, h);
      } else {
        Kept(cal, s.jobs, Next(cal, s, step).jobs, k, h);
      }
    case DoTick(now) =>
      TickKeys(cal, s.jobs, now);
      if k in s.jobs {
        TickRecords(cal, s.jobs, now, k, h);
      } else {
        Kept(cal, s.jobs, Next(cal, s, step).jobs, k, h);
      }
    case Finish(id, outcome, now) =>
      if id == k && k in s.jobs {
        FinishRecords(cal, s.jobs, outcome, now, k, h);
      } else {
        FinishOthers(cal, s.jobs, outcome, now, id, k);
        Kept(cal, s.jobs, Next(cal, s, step).jobs, k, h);
      }
    case Remove(id) =>
      if id == k {
        GoneIsNone(cal, s.jobs - {id}, k);
      } else {
        Kept(cal, s.jobs, Next(cal, s, step).jobs, k, h);
      }
    case RemoveAgent(agent) =>
      if k in s.jobs && s.jobs[k].job.agent == agent {
        GoneIsNone(cal, Next(cal, s, step).jobs, k);
      } else {
        Kept(cal, s.jobs, Next(cal, s, step).jobs, k, h);
      }
    case Clear(id) =>
      ClearedKeeps(s.jobs, id, k);
      Kept(cal, s.jobs, Next(cal, s, step).jobs, k, h);
    case Crash(id) => Kept(cal, s.jobs, Next(cal, s, step).jobs, k, h);
  }

  lemma RecordedMeans(cal: Calendar, jobs: Jobs, k: JobId, h: Option<History>)
    requires Recorded(cal, jobs, k, h)
    ensures (k in jobs <==> h.Some?) && (h.Some? ==> jobs[k].job.agent == h.value.job.agent)
  {
    hide TimeFor;
  }

  lemma TickKeys(cal: Calendar, jobs: Jobs, now: int)
    ensures Tick(cal, jobs, now).Keys == jobs.Keys
  {
    hide Ticked;
  }

  lemma FinishOthers(cal: Calendar, jobs: Jobs, outcome: Outcome, now: int, id: JobId, k: JobId)
    requires id != k || k !in jobs
    ensures var jobs' := match outcome
                         case Success => Succeed(jobs, id, now)
                         case Failure(message) => Fail(cal, jobs, id, now, message)
                         case Removal => jobs - {id};
            (k in jobs' <==> k in jobs) && (k in jobs ==> jobs'[k] == jobs[k])
  {
    hide Failing;
  }

  lemma ClearedKeeps(jobs: Jobs, id: JobId, k: JobId)
    ensures (k in Cleared(jobs, id) <==> k in jobs)
    ensures k in jobs ==>
              && Cleared(jobs, id)[k].job == jobs[k].job && Cleared(jobs, id)[k].oneShot == jobs[k].oneShot
              && Cleared(jobs, id)[k].errors == jobs[k].errors && Cleared(jobs, id)[k].lastStatus == jobs[k].lastStatus
  {
  }

  /**
   * In every run, a job is listed if and only if it was added within the limits and neither removed nor, being
   * one-shot, finished; and its slot, its errors in a row, whether it is on, and its last outcome are those of its
   * history. In particular only its owner or a fifth error in a row switches a job off, and a success or an enabling
   * clears the errors.
   */
  lemma {:induction false} JobIsItsHistory(cal: Calendar, max: nat, start: int, steps: seq<Step>, k: JobId)
    ensures Recorded(cal, Run(cal, Initial(max, start), steps).jobs, k, HistoryOf(cal, max, start, steps, k))
  {
    hide Recorded, Next, Passes, Turned, Possible;
    if steps == [] {
      GoneIsNone(cal, map[], k);
    } else {
      var front, step := steps[..|steps| - 1], steps[|steps| - 1];
      var s := Run(cal, Initial(max, start), front);
      JobIsItsHistory(cal, max, start, front, k);
      if Possible(s, step) {
        StepRecords(cal, s, step, k, HistoryOf(cal, max, start, front, k));
      } else {
        Stays(cal, s, step);
      }
    }
  }

  lemma Stays(cal: Calendar, s: Sys, step: Step)
    requires !Possible(s, step)
    ensures Next(cal, s, step) == s
  {
  }

  /**
   * In every run, a tick fires a job if and only if it is on, the time computed from the last reading of the clock
   * has come, no fire of it is under way and none panicked. For a cron expression that time is the calendar's.
   */
  lemma FiresWhenItsTimeHasCome(cal: Calendar, max: nat, start: int, steps: seq<Step>, now: int, k: JobId)
    requires Run(cal, Initial(max, start), steps).clock <= now
    ensures var s, h := Run(cal, Initial(max, start), steps), HistoryOf(cal, max, start, steps, k);
            Fired(Next(cal, s, DoTick(now)).log, |s.log|, k)
            <==> && h.Some? && h.value.on && TimeFor(cal, h.value.job.schedule, h.value.reading) <= now
                 && Flying(s, k) == 0 && k !in s.crashed
  {
    hide Run, Next, TimeFor, HistoryOf, Flying;
    JobIsItsHistory(cal, max, start, steps, k);
    TickFiresExactly(cal, max, start, steps, now, k);
  }
}
