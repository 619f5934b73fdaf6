/**
 How long the job store keeps a finished job and with what outcome (backend/jobstore.py,
 _purge_expired_locked, _execute): a client that asks in time gets what the payload ended with.
 */
module JobRetention {
  import opened Basics
  import opened JobStore
  import opened JobStoreRuns

  // ----- One purge

  /** A purge takes exactly the finished jobs that were last written more than the time to live ago. */
  lemma PurgedExactly(s: Store, now: real, id: string)
    requires Inv(s) && id in s.jobs
    ensures
      var job, left := s.jobs[id], Purge(s, now).jobs;
      && (id in left <==> job.status == Queued || job.status == Running || job.updatedAt + s.ttlSec >= now)
      && (id in left ==> left[id] == job)
  {
  }

  /**
   A submission purges first. It is taken, as a queued job of that time, exactly if fewer jobs than the queue
   limit are queued or running; all other jobs are those the purge has left.
   */
  lemma SubmittedExactly(s: Store, id: string, now: real)
    requires Inv(s) && id !in s.used && s.permits != []
    ensures
      var left, (s', answer) := Purge(s, now).jobs, Enqueue(s, id, now);
      var active := set x <- s.jobs | s.jobs[x].status == Queued || s.jobs[x].status == Running;
      && (answer == Accepted <==> |active| < s.queueMax)
      && (answer == Accepted || answer == QueueFull)
      && s'.jobs == if answer == Accepted then left[id := Job(Queued, now, None, None)] else left
  {
    PurgeKeeps(s, now);
    assert ActiveIds(s) == set x <- s.jobs | s.jobs[x].status == Queued || s.jobs[x].status == Running;
  }

  /** A step that writes a job stamps it with its clock, and all other steps leave the job as it was. */
  lemma WritesAreStamped(s: Store, a: Action, id: string)
    requires Inv(s) && Enabled(s, a) && id in s.jobs && id in Do(s, a).jobs
    ensures
      var job, job' := s.jobs[id], Do(s, a).jobs[id];
      if a.Progress? && a.id == id then job' == job.(updatedAt := a.now)
      else if a.Step? && a.id == id && s.runners[id].Holding? then job' == job.(status := Running, updatedAt := a.now)
      else if a.Step? && a.id == id && s.runners[id].Writing? then job'.updatedAt == a.now
      else job' == job
  {
    assert InStep(s.jobs, s.runners, id);
  }

  // ----- The outcome

  /** What the job shows is what its payload ended with, stamped with the time of the write. */
  predicate Shows(job: Job, outcome: Outcome, at: real) {
    && job.updatedAt == at
    && match outcome
       case Ok(value) => job.status == Succeeded && job.result == Some(value) && job.error == None
       case DomainFailure(message, code) =>
         job.status == Failed && job.result == None && job.error == Some(JobError(message, code))
       case OtherFailure(message) =>
         job.status == Failed && job.result == None && job.error == Some(JobError(message, "inference_failed"))
  }

  // ----- Any interleaving that follows

  /** The steps lead from s to s'. */
  ghost predicate Leads(s: Store, actions: seq<Action>, s': Store)
    decreases |actions|
  {
    if actions == [] then s' == s
    else
      var last := |actions| - 1;
      exists mid :: Leads(s, actions[..last], mid) && Enabled(mid, actions[last]) && s' == Do(mid, actions[last])
  }

  /** The clock of an action, if it reads one. */
  function ClockOf(a: Action): Option<real> { if a.ConfigureLimits? then None else Some(a.now) }

  /** No clock is past `until`, and the time to live is not configured below `ttl`. */
  ghost predicate InTime(actions: seq<Action>, until: real, ttl: real) {
    forall a <- actions ::
      (ClockOf(a).Some? ==> ClockOf(a).value <= until) && (a.ConfigureLimits? ==> ttl <= 60.0 || ttl <= a.ttlSec)
  }

  ghost predicate Ended(s: Store, id: string) {
    id in s.jobs && (s.jobs[id].status == Succeeded || s.jobs[id].status == Failed)
  }

  lemma EndedStays(s: Store, a: Action, id: string, ttl: real)
    requires Inv(s) && Enabled(s, a) && Ended(s, id) && s.ttlSec >= ttl
    requires ClockOf(a).Some? ==> ClockOf(a).value <= s.jobs[id].updatedAt + ttl
    requires a.ConfigureLimits? ==> ttl <= 60.0 || ttl <= a.ttlSec
    ensures id in Do(s, a).jobs && Do(s, a).jobs[id] == s.jobs[id] && Do(s, a).ttlSec >= ttl
  {
    assert id in s.used && InStep(s.jobs, s.runners, id);
    JobsMoveForward(s, a, id);
    StepKeeps(s, a);
  }

  /** A finished job is left alone until its time to live is over, whatever else happens to the store. */
  lemma {:induction false} EndedJobStays(s: Store, actions: seq<Action>, s': Store, id: string, ttl: real)
    requires Inv(s) && Leads(s, actions, s') && Ended(s, id) && s.ttlSec >= ttl
    requires InTime(actions, s.jobs[id].updatedAt + ttl, ttl)
    ensures Inv(s') && id in s'.jobs && s'.jobs[id] == s.jobs[id] && s'.ttlSec >= ttl
    decreases |actions|
  {
    hide Inv, Do, Enabled;
    if actions != [] {
      var last := |actions| - 1;
      var mid :| Leads(s, actions[..last], mid) && Enabled(mid, actions[last]) && s' == Do(mid, actions[last]);
      assert actions[last] in actions;
      EndedJobStays(s, actions[..last], mid, id, ttl);
      EndedStays(mid, actions[last], id, ttl);
      StepKeeps(mid, actions[last]);
    }
  }

  // ----- From the end of a payload to the answer of a lookup

  lemma PendingStays(s: Store, a: Action, id: string)
    requires Inv(s) && Enabled(s, a) && id in s.runners && s.runners[id].Writing? && !(a.Step? && a.id == id)
    ensures id in Do(s, a).runners && Do(s, a).runners[id] == s.runners[id]
  {
    assert InStep(s.jobs, s.runners, id);
    if a.Submit? {
      assert a.id != id;
    }
  }

  /** Between the end of the payload and the write nobody else touches the outcome. */
  lemma {:induction false} OutcomeWaits(s: Store, actions: seq<Action>, s': Store, id: string)
    requires Inv(s) && Leads(s, actions, s') && id in s.runners && s.runners[id].Writing?
    requires forall a <- actions :: !(a.Step? && a.id == id)
    ensures Inv(s') && id in s'.runners && s'.runners[id] == s.runners[id]
    decreases |actions|
  {
    hide Inv, Do, Enabled;
    if actions != [] {
      var last := |actions| - 1;
      var mid :| Leads(s, actions[..last], mid) && Enabled(mid, actions[last]) && s' == Do(mid, actions[last]);
      assert actions[last] in actions;
      OutcomeWaits(s, actions[..last], mid, id);
      PendingStays(mid, actions[last], id);
      StepKeeps(mid, actions[last]);
    }
  }

  lemma OutcomeIsWritten(s: Store, id: string, now: real, any: Outcome)
    requires Inv(s) && id in s.runners && s.runners[id].Writing?
    ensures
      var s' := Advance(s, id, now, any);
      Inv(s') && s'.ttlSec == s.ttlSec && Ended(s', id) && Shows(s'.jobs[id], s.runners[id].outcome, now)
  {
    assert InStep(s.jobs, s.runners, id) && OneOutcome(s.jobs[id]);
    AdvanceKeeps(s, id, now, any);
  }

  lemma PayloadEnds(s: Store, id: string, now: real, outcome: Outcome)
    requires Inv(s) && id in s.runners && s.runners[id].Working?
    ensures
      var s' := Advance(s, id, now, outcome);
      Inv(s') && id in s'.runners && s'.runners[id].Writing? && s'.runners[id].outcome == outcome
  {
    AdvanceKeeps(s, id, now, outcome);
  }

  /**
   A payload at work in state s ends with `outcome`; after any steps of others it is written at time t,
   and any steps follow that are in time. Then a lookup up to `ttl` seconds after t returns the job with
   that outcome, and a later one under that time to live does not.
   */
  lemma OutcomeIsServed(
    s: Store, id: string, endedAt: real, outcome: Outcome, between: seq<Action>, s1: Store,
    t: real, any: Outcome, after: seq<Action>, s2: Store, ttl: real, now: real)
    requires Inv(s) && id in s.runners && s.runners[id].Working?
    requires Leads(Advance(s, id, endedAt, outcome), between, s1) && forall a <- between :: !(a.Step? && a.id == id)
    requires id in s1.runners && s1.ttlSec >= ttl
    requires Leads(Advance(s1, id, t, any), after, s2) && InTime(after, t + ttl, ttl)
    ensures
      var left := Purge(s2, now).jobs;
      && (now <= t + ttl ==> id in left && Shows(left[id], outcome, t))
      && (now > t + s2.ttlSec ==> id !in left)
  {
    hide Leads, Inv, InTime, Advance, Purge, Shows;
    PayloadEnds(s, id, endedAt, outcome);
    OutcomeWaits(Advance(s, id, endedAt, outcome), between, s1, id);
    OutcomeIsWritten(s1, id, t, any);
    var written := Advance(s1, id, t, any);
    ShownAt(written.jobs[id], outcome, t);
    EndedJobStays(written, after, s2, id, ttl);
    PurgedExactly(s2, now, id);
  }

  lemma ShownAt(job: Job, outcome: Outcome, at: real)
    requires Shows(job, outcome, at)
    ensures job.updatedAt == at
  {
  }

  // ----- Which time to live is in force

  /** The last one configured, but at least a minute; an hour before the first. */
  function TimeToLive(actions: seq<Action>): real {
    if actions == [] then 3600.0
    else
      var last := actions[|actions| - 1];
      if last.ConfigureLimits? then (if last.ttlSec > 60.0 then last.ttlSec else 60.0)
      else TimeToLive(actions[..|actions| - 1])
  }

  lemma {:induction false} TimeToLiveInForce(actions: seq<Action>, s: Store)
    requires Reaches(actions, s)
    ensures s.ttlSec == TimeToLive(actions)
    decreases |actions|
  {
    if actions != [] {
      var last := |actions| - 1;
      var s0 :| Reaches(actions[..last], s0) && Enabled(s0, actions[last]) && s == Do(s0, actions[last]);
      TimeToLiveInForce(actions[..last], s0);
      StepTimeToLive(s0, actions[last]);
    }
  }

  lemma StepTimeToLive(s: Store, a: Action)
    requires Enabled(s, a)
    ensures Do(s, a).ttlSec == if a.ConfigureLimits? then (if a.ttlSec > 60.0 then a.ttlSec else 60.0) else s.ttlSec
  {
  }
}
