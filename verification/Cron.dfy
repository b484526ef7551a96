/**
 * The cron scheduler of `crates/kernel/src/cron.rs`: a map of jobs with pre-advanced fire times and an
 * in-flight guard. Times are ticks of the clock, `SECOND` to the second; every reading of the clock is a
 * parameter. The calendar of cron expressions is a function supplied from outside.
 */
module Cron {
  import opened Common

  const SECOND := 1_000_000_000
  const HOUR := 3600 * SECOND
  const CENTURY := 36500 * 24 * HOUR
  const MAX_CONSECUTIVE_ERRORS: nat := 5
  const MAX_JOBS_PER_AGENT: nat := 50
  const MIN_EVERY_SECS: nat := 60
  const MAX_EVERY_SECS: nat := 86_400
  const MAX_AT_HORIZON_SECS := 365 * 24 * 3600

  type JobId = nat
  type AgentId = nat

  /** The next time a cron expression matches at or after the given time, if there is one. */
  type Calendar = (string, Option<string>, int) -> Option<int>

  datatype Schedule = At(at: int) | Every(secs: nat) | Expr(expr: string, tz: Option<string>)

  /**
   * `nameOk`, `exprOk` and `bodyOk` stand for the checks of the name, the cron expression and the action and
   * delivery.
   */
  datatype Job = Job(id: JobId, agent: AgentId, schedule: Schedule, enabled: bool, nextRun: Option<int>,
                     lastRun: Option<int>,
                     nameOk: bool, exprOk: bool, bodyOk: bool)

  datatype Status = Succeeded | Failed(message: string)

  datatype Meta = Meta(job: Job, oneShot: bool, lastStatus: Option<Status>, errors: nat, running: bool)

  datatype Error =
    | GlobalLimit(max: nat)
    | AgentLimit(count: nat)
    | InvalidName
    | InvalidSchedule
    | InvalidBody
    | NotFound(id: JobId)

  type Jobs = map<JobId, Meta>

  // ---------------------------------------------------------------------------------------------
  // Fire times
  // ---------------------------------------------------------------------------------------------

  function NextRunAfter(cal: Calendar, s: Schedule, after: int): int {
    match s
    case At(at) => if at > after then at else after + CENTURY
    case Every(secs) => after + secs * SECOND
    case Expr(expr, tz) =>
      match cal(expr, tz, after + SECOND)
      case Some(t) => t
      case None => after + HOUR
  }

  /** The clock is read once to compare and once more to compute. */
  function InitialNextRun(cal: Calendar, s: Schedule, t1: int, t2: int): int {
    if s.At? && s.at <= t1 then t2 else NextRunAfter(cal, s, t2)
  }

  predicate ValidSchedule(j: Job, now: int) {
    match j.schedule
    case Every(secs) => MIN_EVERY_SECS <= secs <= MAX_EVERY_SECS
    case At(at) => at > now && (at - now) / SECOND <= MAX_AT_HORIZON_SECS
    case Expr(_, _) => j.exprOk
  }

  function Validate(j: Job, existing: nat, now: int): Option<Error> {
    if existing >= MAX_JOBS_PER_AGENT then Some(AgentLimit(existing))
    else if !j.nameOk then Some(InvalidName)
    else if !ValidSchedule(j, now) then Some(InvalidSchedule)
    else if !j.bodyOk then Some(InvalidBody)
    else None
  }

  // ---------------------------------------------------------------------------------------------
  // What each operation does to the job map
  // ---------------------------------------------------------------------------------------------

  function OfAgent(jobs: Jobs, agent: AgentId): set<JobId> {
    set k | k in jobs && jobs[k].job.agent == agent
  }

  function Added(cal: Calendar, max: nat, jobs: Jobs, j: Job, oneShot: bool, t0: int, t1: int, t2: int)
    : (Result<JobId, Error>, Jobs)
  {
    if |jobs| >= max then (Err(GlobalLimit(max)), jobs)
    else
      match Validate(j, |OfAgent(jobs, j.agent)|, t0)
      case Some(e) => (Err(e), jobs)
      case None =>
        var scheduled := j.(nextRun := Some(InitialNextRun(cal, j.schedule, t1, t2)));
        (Ok(j.id), jobs[j.id := Meta(scheduled, oneShot, None, 0, false)])
  }

  function WithEnabled(cal: Calendar, m: Meta, enabled: bool, t1: int, t2: int): Meta {
    if enabled then
      var next := InitialNextRun(cal, m.job.schedule, t1, t2);
      m.(job := m.job.(enabled := true, nextRun := Some(next)), errors := 0)
    else m.(job := m.job.(enabled := false))
  }

  predicate Slot(m: Meta, now: int) {
    m.job.enabled && m.job.nextRun.Some? && m.job.nextRun.value <= now
  }

  predicate Due(m: Meta, now: int) {
    Slot(m, now) && !m.running
  }

  function Ticked(cal: Calendar, m: Meta, now: int): Meta {
    if Slot(m, now) then m.(job := m.job.(nextRun := Some(NextRunAfter(cal, m.job.schedule, now))), running := true)
      else m
  }

  function Tick(cal: Calendar, jobs: Jobs, now: int): Jobs {
    map k | k in jobs :: Ticked(cal, jobs[k], now)
  }

  function DueIds(jobs: Jobs, now: int): set<JobId> {
    set k | k in jobs && Due(jobs[k], now)
  }

  function Cleared(jobs: Jobs, id: JobId): Jobs {
    if id in jobs then jobs[id := jobs[id].(running := false)] else jobs
  }

  function Succeed(jobs: Jobs, id: JobId, now: int): Jobs {
    if id !in jobs then jobs
    else if jobs[id].oneShot then jobs - {id}
    else jobs[id := jobs[id].(job := jobs[id].job.(lastRun := Some(now)), lastStatus := Some(Succeeded), errors := 0)]
  }

  function Failing(cal: Calendar, m: Meta, now: int, message: string): Meta {
    var m1 := m.(job := m.job.(lastRun := Some(now)), lastStatus := Some(Failed(message)), errors := m.errors + 1);
    if m1.errors >= MAX_CONSECUTIVE_ERRORS then m1.(job := m1.job.(enabled := false))
    else if !m.oneShot then m1.(job := m1.job.(nextRun := Some(NextRunAfter(cal, m.job.schedule, now))))
    else m1
  }

  function Fail(cal: Calendar, jobs: Jobs, id: JobId, now: int, message: string): Jobs {
    if id !in jobs then jobs
    else if jobs[id].oneShot then jobs - {id}
    else jobs[id := Failing(cal, jobs[id], now, message)]
  }

  /**
   * A tick under way: the jobs in `rest` are as they were, the others have been looked at and the due ones
   * collected.
   */
  ghost predicate Taken(cal: Calendar, was: Jobs, now: int, jobs: Jobs, due: seq<Job>, rest: set<JobId>) {
    && jobs.Keys == was.Keys
    && (forall k :: k in jobs ==> jobs[k] == if k in rest then was[k] else Ticked(cal, was[k], now))
    && (forall j :: j in due <==> j.id in DueIds(was, now) && j.id !in rest && j.id in jobs && j == jobs[j.id].job)
    && forall a, b :: 0 <= a < b < |due| ==> due[a].id != due[b].id
  }

  lemma NothingTaken(cal: Calendar, was: Jobs, now: int)
    ensures Taken(cal, was, now, was, [], was.Keys)
  {
  }

  lemma TickedMeans(cal: Calendar, m: Meta, now: int)
    ensures Ticked(cal, m, now)
            == if !Slot(m, now) then m
               else m.(job := m.job.(nextRun := Some(NextRunAfter(cal, m.job.schedule, now))), running := true)
    ensures Due(m, now) <==> Slot(m, now) && !m.running
    ensures Ticked(cal, m, now).job.id == m.job.id
  {
  }

  lemma TakeNext(cal: Calendar, was: Jobs, now: int, jobs: Jobs, due: seq<Job>, rest: set<JobId>, k: JobId)
    requires Taken(cal, was, now, jobs, due, rest) && k in rest && k in was && was[k].job.id == k
    ensures jobs.Keys == was.Keys && jobs[k] == was[k]
    ensures var m := Ticked(cal, was[k], now);
            Taken(cal, was, now, jobs[k := m], if Due(was[k], now) then due + [m.job] else due, rest - {k})
  {
    hide Ticked, Due, NextRunAfter;
    TickedMeans(cal, was[k], now);
    var m := Ticked(cal, was[k], now);
    var jobs', due' := jobs[k := m], if Due(was[k], now) then due + [m.job] else due;
    forall j
      ensures j in due' <==> j.id in DueIds(was, now) && j.id !in rest - {k} && j.id in jobs' && j == jobs'[j.id].job
    {
      if j.id != k {
        assert j in due' <==> j in due;
      } else {
        assert j !in due;
      }
    }
  }

  lemma AllTaken(cal: Calendar, was: Jobs, now: int, jobs: Jobs, due: seq<Job>)
    requires Taken(cal, was, now, jobs, due, {})
    ensures jobs == Tick(cal, was, now)
    ensures forall j :: j in due <==> j.id in DueIds(was, now) && j.id in jobs && j == jobs[j.id].job
    ensures forall a, b :: 0 <= a < b < |due| ==> due[a].id != due[b].id
  {
    hide Ticked, Due;
  }

  // ---------------------------------------------------------------------------------------------
  // The scheduler
  // ---------------------------------------------------------------------------------------------

  class CronScheduler {
    var jobs: Jobs
    var maxTotalJobs: nat
    const cal: Calendar

    constructor (cal: Calendar, maxTotalJobs: nat)
      ensures jobs == map[] && this.maxTotalJobs == maxTotalJobs && this.cal == cal
    {
      this.cal := cal;
      this.maxTotalJobs := maxTotalJobs;
      jobs := map[];
    }

    method AddJob(j: Job, oneShot: bool, t0: int, t1: int, t2: int) returns (r: Result<JobId, Error>)
      modifies this`jobs
      ensures (r, jobs) == Added(cal, maxTotalJobs, old(jobs), j, oneShot, t0, t1, t2)
    {
      if |jobs| >= maxTotalJobs {
        return Err(GlobalLimit(maxTotalJobs));
      }
      var problem := Validate(j, |OfAgent(jobs, j.agent)|, t0);
      if problem.Some? {
        return Err(problem.value);
      }
      var scheduled := j.(nextRun := Some(InitialNextRun(cal, j.schedule, t1, t2)));
      jobs := jobs[j.id := Meta(scheduled, oneShot, None, 0, false)];
      return Ok(j.id);
    }

    method RemoveJob(id: JobId) returns (r: Result<Job, Error>)
      modifies this`jobs
      ensures r == if id in old(jobs) then Ok(old(jobs)[id].job) else Err(NotFound(id))
      ensures jobs == old(jobs) - {id}
    {
      if id !in jobs {
        return Err(NotFound(id));
      }
      r := Ok(jobs[id].job);
      jobs := jobs - {id};
    }

    method RemoveAgentJobs(agent: AgentId) returns (count: nat)
      modifies this`jobs
      ensures count == |OfAgent(old(jobs), agent)| && jobs == old(jobs) - OfAgent(old(jobs), agent)
    {
      var ids := OfAgent(jobs, agent);
      count := |ids|;
      var rest := ids;
      while rest != {}
        invariant rest <= ids && jobs == old(jobs) - (ids - rest)
        decreases rest
      {
        var id :| id in rest;
        jobs := jobs - {id};
        rest := rest - {id};
      }
    }

    method SetEnabled(id: JobId, enabled: bool, t1: int, t2: int) returns (r: Result<(), Error>)
      modifies this`jobs
      ensures r == if id in old(jobs) then Ok(()) else Err(NotFound(id))
      ensures jobs == if id in old(jobs) then old(jobs)[id := WithEnabled(cal, old(jobs)[id], enabled, t1, t2)]
              else old(jobs)
    {
      if id !in jobs {
        return Err(NotFound(id));
      }
      var m := jobs[id];
      m := m.(job := m.job.(enabled := enabled));
      if enabled {
        m := m.(errors := 0);
        m := m.(job := m.job.(nextRun := Some(InitialNextRun(cal, m.job.schedule, t1, t2))));
      }
      jobs := jobs[id := m];
      return Ok(());
    }

    /** The due jobs, each as it stands after its fire time was advanced. */
    method DueJobs(now: int) returns (due: seq<Job>)
      requires forall k :: k in jobs ==> jobs[k].job.id == k
      modifies this`jobs
      ensures jobs == Tick(cal, old(jobs), now)
      ensures forall j :: j in due <==> j.id in DueIds(old(jobs), now) && j == jobs[j.id].job
      ensures forall a, b :: 0 <= a < b < |due| ==> due[a].id != due[b].id
    {
      hide NextRunAfter, Taken, Ticked, Due;
      due := [];
      var rest := jobs.Keys;
      ghost var was := jobs;
      NothingTaken(cal, was, now);
      while rest != {}
        invariant rest <= was.Keys && jobs.Keys == was.Keys && Taken(cal, was, now, jobs, due, rest)
        decreases rest
      {
        var k :| k in rest;
        TakeNext(cal, was, now, jobs, due, rest, k);
        TickedMeans(cal, jobs[k], now);
        rest := rest - {k};
        var m := jobs[k];
        if m.job.enabled && m.job.nextRun.Some? && m.job.nextRun.value <= now {
          var next := Some(NextRunAfter(cal, m.job.schedule, now));
          if m.running {
            jobs := jobs[k := m.(job := m.job.(nextRun := next))];
            continue;
          }
          m := m.(job := m.job.(nextRun := next));
          m := m.(running := true);
          jobs := jobs[k := m];
          due := due + [m.job];
        } else {
          assert jobs[k := m] == jobs;
        }
      }
      AllTaken(cal, was, now, jobs, due);
    }

    method ClearRunning(id: JobId)
      modifies this`jobs
      ensures jobs == Cleared(old(jobs), id)
    {
      if id in jobs {
        jobs := jobs[id := jobs[id].(running := false)];
      }
    }

    method RecordSuccess(id: JobId, now: int)
      modifies this`jobs
      ensures jobs == Succeed(old(jobs), id, now)
    {
      if id !in jobs {
        return;
      }
      var m := jobs[id];
      m := m.(job := m.job.(lastRun := Some(now)), lastStatus := Some(Succeeded), errors := 0);
      jobs := jobs[id := m];
      if m.oneShot {
        jobs := jobs - {id};
      }
    }

    method RecordFailure(id: JobId, now: int, message: string)
      modifies this`jobs
      ensures jobs == Fail(cal, old(jobs), id, now, message)
    {
      if id !in jobs {
        return;
      }
      var m := jobs[id];
      m := m.(job := m.job.(lastRun := Some(now)), lastStatus := Some(Failed(message)));
      m := m.(errors := m.errors + 1);
      if m.errors >= MAX_CONSECUTIVE_ERRORS {
        m := m.(job := m.job.(enabled := false));
      } else if !m.oneShot {
        m := m.(job := m.job.(nextRun := Some(NextRunAfter(cal, m.job.schedule, now))));
      }
      jobs := jobs[id := m];
      if m.oneShot {
        jobs := jobs - {id};
      }
    }
  }
}
