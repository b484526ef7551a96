/**
 * A job of the cron scheduler whose time passes while it is being added or enabled again: when it is fired at
 * once, and that it is put off by a century otherwise, whatever happens in between.
 */
module CronLate {
  import opened Common
  import opened Cron
  import opened CronRuns

  ghost predicate EnabledSince(log: seq<Event>, n: nat, j: nat, k: JobId) {
    exists e :: n <= e < j && e < |log| && log[e] == Enabling(k)
  }

  lemma StillEnabled(log: seq<Event>, log': seq<Event>, n: nat, j: nat, j': nat, k: JobId)
    requires log <= log' && j <= |log| && j <= j'
    ensures EnabledSince(log, n, j, k) ==> EnabledSince(log', n, j', k)
  {
    if EnabledSince(log, n, j, k) {
      var e :| n <= e < j && e < |log| && log[e] == Enabling(k);
      assert log'[e] == Enabling(k);
    }
  }

  /**
   * What is said of an event at or after entry `n` of the log: a fire of `k` came after an enabling or not
   * before `bound`.
   */
  ghost predicate LateFire(log: seq<Event>, n: nat, k: JobId, bound: int, i: nat) {
    Fired(log, i, k) ==> EnabledSince(log, n, i, k) || log[i].now >= bound
  }

  /**
   * The job, whose time is over, is not scheduled before `bound` unless it was enabled again, and was not fired
   * before it.
   */
  ghost predicate PutOff(s: Sys, n: nat, k: JobId, at: int, bound: int) {
    && k in s.used && at <= s.clock && bound <= s.clock + CENTURY
    && (k in s.jobs ==>
          && s.jobs[k].job.schedule == At(at)
          && (s.jobs[k].job.nextRun.None? || s.jobs[k].job.nextRun.value >= bound
              || EnabledSince(s.log, n, |s.log|, k)))
    && forall i: nat {:trigger LateFire(s.log, n, k, bound, i)} :: i >= n ==> LateFire(s.log, n, k, bound, i)
  }

  lemma LateFires(s: Sys, s': Sys, n: nat, k: JobId, at: int, bound: int)
    requires PutOff(s, n, k, at, bound) && s.log <= s'.log
    requires |s'.log| <= |s.log| + 1 && (|s'.log| > |s.log| ==> LateFire(s'.log, n, k, bound, |s.log|))
    ensures forall i: nat {:trigger LateFire(s'.log, n, k, bound, i)} :: i >= n ==> LateFire(s'.log, n, k, bound, i)
  {
    forall i: nat | i >= n ensures LateFire(s'.log, n, k, bound, i) {
      assert LateFire(s.log, n, k, bound, i);
      if i < |s.log| {
        StillEnabled(s.log, s'.log, n, i, i, k);
      }
    }
  }

  lemma TickPutsOff(cal: Calendar, s: Sys, now: int, n: nat, k: JobId, at: int, bound: int)
    requires PutOff(s, n, k, at, bound) && s.clock <= now
    ensures PutOff(Next(cal, s, DoTick(now)), n, k, at, bound)
  {
    var s' := Next(cal, s, DoTick(now));
    assert s'.log[|s.log|] == Ticking(now, Fires(s.jobs, now));
    StillEnabled(s.log, s'.log, n, |s.log|, |s.log|, k);
    StillEnabled(s.log, s'.log, n, |s.log|, |s'.log|, k);
    LateFires(s, s', n, k, at, bound);
  }

  lemma FinishPutsOff(cal: Calendar, s: Sys, outcome: Outcome, now: int, n: nat, k: JobId, at: int, bound: int)
    requires PutOff(s, n, k, at, bound) && k in s.firing && s.clock <= now
    ensures PutOff(Next(cal, s, Finish(k, outcome, now)), n, k, at, bound)
  {
    var s' := Next(cal, s, Finish(k, outcome, now));
    LateFires(s, s', n, k, at, bound);
  }

  lemma EnablePutsOff(cal: Calendar, s: Sys, enabled: bool, t1: int, t2: int, n: nat, k: JobId, at: int, bound: int)
    requires PutOff(s, n, k, at, bound) && s.clock <= t1 <= t2 && n <= |s.log|
    ensures PutOff(Next(cal, s, SetEnabled(k, enabled, t1, t2)), n, k, at, bound)
  {
    hide InitialNextRun;
    var s' := Next(cal, s, SetEnabled(k, enabled, t1, t2));
    if k in s.jobs && enabled {
      assert s'.log[|s.log|] == Enabling(k);
    }
    LateFires(s, s', n, k, at, bound);
  }

  lemma OtherPutsOff(cal: Calendar, s: Sys, step: Step, n: nat, k: JobId, at: int, bound: int)
    requires PutOff(s, n, k, at, bound) && (!Targets(step, k) || step.Clear? || step.Crash?)
    ensures PutOff(Next(cal, s, step), n, k, at, bound)
  {
    hide Added, Succeed, Fail, WithEnabled, OfAgent;
    var s' := Next(cal, s, step);
    if k in s'.jobs && !Targets(step, k) {
      OthersUnchanged(cal, s, step, k);
    }
    ClockRuns(cal, s, step);
    if |s'.log| > |s.log| {
      StillEnabled(s.log, s'.log, n, |s.log|, |s'.log|, k);
    }
    LateFires(s, s', n, k, at, bound);
  }

  lemma ClockRuns(cal: Calendar, s: Sys, step: Step)
    ensures var s' := Next(cal, s, step);
            && s.clock <= s'.clock && s.used <= s'.used && s.log <= s'.log
            && (s'.log == s.log || (|s'.log| == |s.log| + 1 && (step.DoTick? || step.SetEnabled?)))
            && (|s'.log| > |s.log| && step.SetEnabled? ==> s'.log[|s.log|].Enabling?)
  {
    hide Added, Succeed, Fail, WithEnabled, OfAgent, Cleared, Tick, Fires;
  }

  lemma NextPutsOff(cal: Calendar, s: Sys, step: Step, n: nat, k: JobId, at: int, bound: int)
    requires PutOff(s, n, k, at, bound) && n <= |s.log|
    ensures PutOff(Next(cal, s, step), n, k, at, bound)
  {
    hide PutOff, Added, Succeed, Fail, WithEnabled, OfAgent, Cleared, Tick, Fires;
    if Possible(s, step) {
      if !Targets(step, k) || step.Clear? || step.Crash? {
        OtherPutsOff(cal, s, step, n, k, at, bound);
      } else if step.DoTick? {
        TickPutsOff(cal, s, step.now, n, k, at, bound);
      } else if step.Finish? {
        FinishPutsOff(cal, s, step.outcome, step.now, n, k, at, bound);
      } else if step.SetEnabled? {
        EnablePutsOff(cal, s, step.enabled, step.t1, step.t2, n, k, at, bound);
      } else {
        UsedIsKnown(s, n, k, at, bound);
      }
    }
  }

  lemma UsedIsKnown(s: Sys, n: nat, k: JobId, at: int, bound: int)
    requires PutOff(s, n, k, at, bound)
    ensures k in s.used
  {
  }

  lemma {:induction false} RunPutsOff(cal: Calendar, s: Sys, steps: seq<Step>, n: nat, k: JobId, at: int, bound: int)
    requires PutOff(s, n, k, at, bound) && n <= |s.log|
    ensures PutOff(Run(cal, s, steps), n, k, at, bound) && n <= |Run(cal, s, steps).log|
  {
    hide PutOff, Next;
    if steps != [] {
      var front := steps[..|steps| - 1];
      RunPutsOff(cal, s, front, n, k, at, bound);
      NextPutsOff(cal, Run(cal, s, front), steps[|steps| - 1], n, k, at, bound);
      ClockRuns(cal, Run(cal, s, front), steps[|steps| - 1]);
    }
  }

  /**
   * An accepted `At` job is documented to fire at once rather than never when its time is over. A tick at or
   * after its time and its registration fires it if and only if the time did not pass between the two
   * clock readings of the registration.
   */
  lemma PastAtFiresAtOnceExactlyWhen(cal: Calendar, s: Sys, j: Job, oneShot: bool, t0: int, t1: int, t2: int, now: int)
    requires Possible(s, Add(j, oneShot, t0, t1, t2)) && Added(cal, s.max, s.jobs, j, oneShot, t0, t1, t2).0.Ok?
    requires j.schedule.At? && j.enabled && Max(j.schedule.at, t2) <= now < t2 + CENTURY
    ensures var s1 := Next(cal, s, Add(j, oneShot, t0, t1, t2));
            Fired(Next(cal, s1, DoTick(now)).log, |s1.log|, j.id) <==> !(t1 < j.schedule.at <= t2)
  {
    hide Validate, Tick, OfAgent;
    var s1 := Next(cal, s, Add(j, oneShot, t0, t1, t2));
    assert Due(s1.jobs[j.id], now) <==> !(t1 < j.schedule.at <= t2);
    assert Next(cal, s1, DoTick(now)).log[|s1.log|] == Ticking(now, Fires(s1.jobs, now));
  }

  /**
   * When it did pass between the readings, the job is accepted all the same, and in every run from there on
   * it is not fired for 36500 days unless it is enabled again.
   */
  lemma PastAtIsPutOff(cal: Calendar, s: Sys, j: Job, oneShot: bool, t0: int, t1: int, t2: int, steps: seq<Step>,
                       i: nat)
    requires Possible(s, Add(j, oneShot, t0, t1, t2)) && |s.jobs| < s.max
             && |OfAgent(s.jobs, j.agent)| < MAX_JOBS_PER_AGENT
    requires j.schedule.At? && j.nameOk && j.bodyOk && t1 < j.schedule.at <= t2
             && (j.schedule.at - t0) / SECOND <= MAX_AT_HORIZON_SECS
    requires i >= |s.log|
    ensures var s1 := Next(cal, s, Add(j, oneShot, t0, t1, t2));
            var log := Run(cal, s1, steps).log;
            && j.id in s1.jobs && s1.jobs[j.id].job == j.(nextRun := Some(t2 + CENTURY))
            && (Fired(log, i, j.id) ==> EnabledSince(log, |s.log|, i, j.id) || log[i].now >= t2 + CENTURY)
  {
    hide Run, PutOff, LateFire;
    var s1 := Next(cal, s, Add(j, oneShot, t0, t1, t2));
    AddPutsOff(cal, s, j, oneShot, t0, t1, t2);
    RunPutsOff(cal, s1, steps, |s.log|, j.id, j.schedule.at, t2 + CENTURY);
    PutOffMeans(Run(cal, s1, steps), |s.log|, j.id, j.schedule.at, t2 + CENTURY, i);
  }

  lemma PutOffMeans(s: Sys, n: nat, k: JobId, at: int, bound: int, i: nat)
    requires PutOff(s, n, k, at, bound) && i >= n
    ensures Fired(s.log, i, k) ==> EnabledSince(s.log, n, i, k) || s.log[i].now >= bound
  {
    assert LateFire(s.log, n, k, bound, i);
  }

  lemma AddPutsOff(cal: Calendar, s: Sys, j: Job, oneShot: bool, t0: int, t1: int, t2: int)
    requires Possible(s, Add(j, oneShot, t0, t1, t2)) && |s.jobs| < s.max
             && |OfAgent(s.jobs, j.agent)| < MAX_JOBS_PER_AGENT
    requires j.schedule.At? && j.nameOk && j.bodyOk && t1 < j.schedule.at <= t2
             && (j.schedule.at - t0) / SECOND <= MAX_AT_HORIZON_SECS
    ensures var s1 := Next(cal, s, Add(j, oneShot, t0, t1, t2));
            && j.id in s1.jobs && s1.jobs[j.id].job == j.(nextRun := Some(t2 + CENTURY)) && s1.log == s.log
            && PutOff(s1, |s.log|, j.id, j.schedule.at, t2 + CENTURY)
  {
    assert Validate(j, |OfAgent(s.jobs, j.agent)|, t0).None?;
    hide Validate, OfAgent;
    var s1, n, bound := Next(cal, s, Add(j, oneShot, t0, t1, t2)), |s.log|, t2 + CENTURY;
    assert forall i: nat {:trigger LateFire(s1.log, n, j.id, bound, i)} :: i >= n ==>
             LateFire(s1.log, n, j.id, bound, i);
  }

  /**
   * The same is documented of a job that is enabled again. In every run, a tick at or after both its time and the
   * enabling fires it if and only if no fire of it is under way or panicked, and the time did not pass between
   * the two clock readings of the enabling.
   */
  lemma ReenabledFiresAtOnceExactlyWhen(cal: Calendar, max: nat, start: int, steps: seq<Step>, id: JobId,
                                        t1: int, t2: int, now: int)
    requires var s := Run(cal, Initial(max, start), steps);
             && id in s.jobs && s.jobs[id].job.schedule.At? && s.clock <= t1 <= t2
             && Max(s.jobs[id].job.schedule.at, t2) <= now < t2 + CENTURY
    ensures var s := Run(cal, Initial(max, start), steps);
            var at, s1 := s.jobs[id].job.schedule.at, Next(cal, s, SetEnabled(id, true, t1, t2));
            Fired(Next(cal, s1, DoTick(now)).log, |s1.log|, id)
            <==> Flying(s, id) == 0 && id !in s.crashed && !(t1 < at <= t2)
  {
    hide Run, Inv, Tick, Flying;
    var s := Run(cal, Initial(max, start), steps);
    RunKeepsInv(cal, max, start, steps);
    GuardIsUp(s, id);
    var s1 := Next(cal, s, SetEnabled(id, true, t1, t2));
    assert s1.jobs[id].running <==> s.jobs[id].running;
    assert Next(cal, s1, DoTick(now)).log[|s1.log|] == Ticking(now, Fires(s1.jobs, now));
  }

  lemma GuardIsUp(s: Sys, id: JobId)
    requires Inv(s) && id in s.jobs
    ensures id in s.used && (s.jobs[id].running <==> !(Flying(s, id) == 0 && id !in s.crashed))
  {
    assert JobOk(s, id) && FlightOk(s, id);
  }

  /** When it did pass between them, the job is not fired for 36500 days unless it is enabled once more. */
  lemma ReenabledIsPutOff(cal: Calendar, max: nat, start: int, steps: seq<Step>, id: JobId, t1: int, t2: int,
                          more: seq<Step>, i: nat)
    requires var s := Run(cal, Initial(max, start), steps);
             && id in s.jobs && s.jobs[id].job.schedule.At? && s.clock <= t1 < s.jobs[id].job.schedule.at <= t2
             && i > |s.log|
    ensures var s := Run(cal, Initial(max, start), steps);
            var log := Run(cal, Next(cal, s, SetEnabled(id, true, t1, t2)), more).log;
            Fired(log, i, id) ==> EnabledSince(log, |s.log| + 1, i, id) || log[i].now >= t2 + CENTURY
  {
    hide Run, PutOff, LateFire, Inv, Next;
    var s := Run(cal, Initial(max, start), steps);
    var s1, at := Next(cal, s, SetEnabled(id, true, t1, t2)), s.jobs[id].job.schedule.at;
    RunKeepsInv(cal, max, start, steps);
    ReenablePutsOff(cal, s, id, t1, t2);
    RunPutsOff(cal, s1, more, |s1.log|, id, at, t2 + CENTURY);
    PutOffMeans(Run(cal, s1, more), |s1.log|, id, at, t2 + CENTURY, i);
  }

  lemma ReenablePutsOff(cal: Calendar, s: Sys, id: JobId, t1: int, t2: int)
    requires Inv(s) && id in s.jobs && s.jobs[id].job.schedule.At? && s.clock <= t1 < s.jobs[id].job.schedule.at <= t2
    ensures var s1 := Next(cal, s, SetEnabled(id, true, t1, t2));
            |s1.log| == |s.log| + 1 && PutOff(s1, |s1.log|, id, s.jobs[id].job.schedule.at, t2 + CENTURY)
  {
    hide Inv;
    GuardIsUp(s, id);
    var s1 := Next(cal, s, SetEnabled(id, true, t1, t2));
    var n, at, bound := |s1.log|, s.jobs[id].job.schedule.at, t2 + CENTURY;
    assert forall i: nat {:trigger LateFire(s1.log, n, id, bound, i)} :: i >= n ==> LateFire(s1.log, n, id, bound, i);
  }

  const SLOW := Job(8, 1, At(2), true, None, None, true, true, true)

  /** A job for time 2, registered while the clock goes from 0 to 2, is accepted and not fired for 36500 days. */
  lemma PastAtIsLost(cal: Calendar, steps: seq<Step>, i: nat)
    ensures var s := Next(cal, Initial(10, 0), Add(SLOW, false, 0, 1, 2));
            var log := Run(cal, s, steps).log;
            && 8 in s.jobs && s.jobs[8].job.enabled
            && (Fired(log, i, 8) ==> EnabledSince(log, 0, i, 8) || log[i].now >= 2 + CENTURY)
  {
    hide Next;
    assert OfAgent(map[], 1) == {};
    PastAtIsPutOff(cal, Initial(10, 0), SLOW, false, 0, 1, 2, steps, i);
  }
}
