/**
 The in-process job store (backend/jobstore.py, class JobStore) as a step system. Each method of
 the class is one stretch of the original between two suspensions: what runs under the lock, or
 a single acquire or release of a semaphore. A run is any interleaving of them.

 `release_payload` is total and nothing is cancelled, so the outer handler of _run_job never fires.
 */
module JobStore {
  import opened Basics

  datatype Status = Queued | Running | Succeeded | Failed

  predicate IsActive(s: Status) { s == Queued || s == Running }

  datatype JobError = JobError(message: string, code: string)

  datatype Job = Job(status: Status, updatedAt: real, result: Option<string>, error: Option<JobError>)

  /** How run_job_payload ends: with a result, a domain failure or any other exception. */
  datatype Outcome = Ok(value: string) | DomainFailure(message: string, code: string) | OtherFailure(message: string)

  /**
   Where a job's runner is. A semaphore generation is bound when the runner reaches
   `async with self._semaphore`; from `Holding` to `Releasing` it holds one of its permits.
   */
  datatype Runner =
    | Spawned
    | Waiting(gen: nat)
    | Holding(gen: nat)
    | Started(gen: nat)
    | Working(gen: nat)
    | Writing(gen: nat, outcome: Outcome)
    | Releasing(gen: nat)
  {
    predicate Holds(g: nat) { !Spawned? && !Waiting? && gen == g }
  }

  datatype Store = Store(
    jobs: map<string, Job>,
    runners: map<string, Runner>,
    used: set<string>,
    permits: seq<nat>,
    maxConcurrent: nat,
    queueMax: nat,
    ttlSec: real)

  const EMPTY := Store(map[], map[], {}, [], 8, 64, 3600.0)

  // ----- The steps

  /** configure_limits: clamps the limits and installs a fresh semaphore. */
  function Configure(s: Store, maxConcurrent: int, queueMax: int, ttlSec: real): Store {
    var permits := Max(1, maxConcurrent);
    s.(maxConcurrent := permits, queueMax := Max(1, queueMax),
       ttlSec := if ttlSec > 60.0 then ttlSec else 60.0, permits := s.permits + [permits])
  }

  predicate Expired(s: Store, job: Job, now: real) { job.updatedAt < now - s.ttlSec && !IsActive(job.status) }

  function Purge(s: Store, now: real): Store {
    if s.ttlSec <= 0.0 then s else s.(jobs := map id <- s.jobs | !Expired(s, s.jobs[id], now) :: s.jobs[id])
  }

  function ActiveIds(s: Store): set<string> { set id <- s.jobs | IsActive(s.jobs[id].status) }

  datatype EnqueueResult = Accepted | NotConfigured | QueueFull

  /** enqueue of a fresh job: purge, then admit it unless the queue is full, and spawn its runner. */
  function Enqueue(s: Store, id: string, now: real): (Store, EnqueueResult) {
    if s.permits == [] then (s, NotConfigured)
    else
      var p := Purge(s, now);
      if |ActiveIds(p)| >= p.queueMax then (p, QueueFull)
      else
        (p.(jobs := p.jobs[id := Job(Queued, now, None, None)], runners := p.runners[id := Spawned],
            used := p.used + {id}), Accepted)
  }

  function InUse(s: Store, gen: nat): set<string> { set id <- s.runners | s.runners[id].Holds(gen) }

  function SetRunner(s: Store, id: string, r: Runner): Store { s.(runners := s.runners[id := r]) }

  function EndRunner(s: Store, id: string): Store { s.(runners := s.runners - {id}) }

  /** The write of an outcome, under the lock. */
  function Written(job: Job, outcome: Outcome, now: real): Job {
    match outcome
    case Ok(value) => job.(status := Succeeded, result := Some(value), updatedAt := now)
    case DomainFailure(message, code) =>
      job.(status := Failed, error := Some(JobError(message, code)), updatedAt := now)
    case OtherFailure(message) =>
      job.(status := Failed, error := Some(JobError(message, "inference_failed")), updatedAt := now)
  }

  /** The next stretch of a runner; `outcome` is what the payload ends with, should it end now. */
  function Advance(s: Store, id: string, now: real, outcome: Outcome): Store
    requires id in s.runners
  {
    var here := id in s.jobs;
    match s.runners[id]
    case Spawned =>
      if !here || s.permits == [] then EndRunner(s, id) else SetRunner(s, id, Waiting(|s.permits| - 1))
    case Waiting(g) =>
      if g < |s.permits| && |InUse(s, g)| < s.permits[g] then SetRunner(s, id, Holding(g)) else s
    case Holding(g) =>
      var t := SetRunner(s, id, Started(g));
      if here then t.(jobs := t.jobs[id := t.jobs[id].(status := Running, updatedAt := now)]) else t
    case Started(g) => SetRunner(s, id, if here then Working(g) else Releasing(g))
    case Working(g) => SetRunner(s, id, Writing(g, outcome))
    case Writing(g, o) =>
      var t := SetRunner(s, id, Releasing(g));
      if here then t.(jobs := t.jobs[id := Written(t.jobs[id], o, now)]) else t
    case Releasing(g) => EndRunner(s, id)
  }

  /** Progress writers of a running payload only touch the timestamp. */
  function Touch(s: Store, id: string, now: real): Store
    requires id in s.jobs
  {
    s.(jobs := s.jobs[id := s.jobs[id].(updatedAt := now)])
  }

  class JobStore {
    var jobs: map<string, Job>
    var runners: map<string, Runner>
    ghost var used: set<string>
    var permits: seq<nat>
    var maxConcurrent: nat
    var queueMax: nat
    var ttlSec: real

    ghost function State(): Store
      reads this
    {
      Store(jobs, runners, used, permits, maxConcurrent, queueMax, ttlSec)
    }

    constructor ()
      ensures State() == EMPTY
    {
      jobs, runners, used, permits, maxConcurrent, queueMax, ttlSec := map[], map[], {}, [], 8, 64, 3600.0;
    }

    method ConfigureLimits(maxConcurrent: int, queueMax: int, ttlSec: real)
      modifies this
      ensures State() == Configure(old(State()), maxConcurrent, queueMax, ttlSec)
    {
      this.maxConcurrent := Max(1, maxConcurrent);
      this.queueMax := Max(1, queueMax);
      this.ttlSec := if ttlSec > 60.0 then ttlSec else 60.0;
      permits := permits + [this.maxConcurrent];
    }

    method PurgeExpired(now: real)
      modifies this`jobs
      ensures State() == Purge(old(State()), now)
      ensures jobs.Keys <= old(jobs).Keys && forall id <- jobs :: jobs[id] == old(jobs)[id]
      ensures ttlSec > 0.0 ==> forall id <- old(jobs) ::
        id in jobs <==> old(jobs)[id].updatedAt + ttlSec >= now || old(jobs)[id].status in {Queued, Running}
    {
      if ttlSec <= 0.0 {
        return;
      }
      var cutoff := now - ttlSec;
      jobs := map id <- jobs | !(jobs[id].updatedAt < cutoff && !IsActive(jobs[id].status)) :: jobs[id];
    }

    method EnqueueJob(id: string, now: real) returns (r: EnqueueResult)
      modifies this
      ensures (State(), r) == Enqueue(old(State()), id, now)
    {
      if permits == [] {
        return NotConfigured;
      }
      PurgeExpired(now);
      var active := set j <- jobs | IsActive(jobs[j].status);
      if |active| >= queueMax {
        return QueueFull;
      }
      jobs := jobs[id := Job(Queued, now, None, None)];
      runners := runners[id := Spawned];
      used := used + {id};
      return Accepted;
    }

    method GetJob(id: string, now: real) returns (job: Option<Job>)
      modifies this
      ensures State() == Purge(old(State()), now)
      ensures job.Some? ==> id in old(jobs) && job.value == old(jobs)[id]
      ensures ttlSec > 0.0 && id in old(jobs) ==>
        (job.Some? <==> old(jobs)[id].updatedAt + ttlSec >= now || old(jobs)[id].status in {Queued, Running})
      ensures job == if id in jobs then Some(jobs[id]) else None
    {
      PurgeExpired(now);
      job := if id in jobs then Some(jobs[id]) else None;
    }

    method SetStatus(id: string, status: Status, now: real)
      modifies this`jobs
      ensures jobs
           == if id in old(jobs) then old(jobs)[id := old(jobs)[id].(status := status, updatedAt := now)] else old(jobs)
    {
      if id !in jobs {
        return;
      }
      jobs := jobs[id := jobs[id].(status := status, updatedAt := now)];
    }

    method SetFailed(id: string, message: string, code: string, now: real)
      modifies this`jobs
      ensures jobs
           == if id in old(jobs) then
                old(jobs)[id := old(jobs)[id]
                                  .(status := Failed, error := Some(JobError(message, code)), updatedAt := now)]
              else old(jobs)
    {
      if id !in jobs {
        return;
      }
      jobs := jobs[id := jobs[id].(status := Failed, error := Some(JobError(message, code)), updatedAt := now)];
    }

    /** Whatever stretch of _run_job and _execute comes next for this runner. */
    method AdvanceRunner(id: string, now: real, outcome: Outcome)
      requires id in runners
      modifies this
      ensures State() == Advance(old(State()), id, now, outcome)
    {
      match runners[id] {
        case Spawned =>
          if id !in jobs || permits == [] {
            runners := runners - {id};
          } else {
            runners := runners[id := Waiting(|permits| - 1)];
          }
        case Waiting(g) =>
          var inUse := set j <- runners | runners[j].Holds(g);
          if g < |permits| && |inUse| < permits[g] {
            runners := runners[id := Holding(g)];
          }
        case Holding(g) =>
          SetStatus(id, Running, now);
          runners := runners[id := Started(g)];
        case Started(g) =>
          runners := runners[id := if id in jobs then Working(g) else Releasing(g)];
        case Working(g) =>
          runners := runners[id := Writing(g, outcome)];
        case Writing(g, o) =>
          match o {
            case Ok(value) =>
              if id in jobs {
                jobs := jobs[id := jobs[id].(status := Succeeded, result := Some(value), updatedAt := now)];
              }
            case DomainFailure(message, code) => SetFailed(id, message, code, now);
            case OtherFailure(message) => SetFailed(id, message, "inference_failed", now);
          }
          runners := runners[id := Releasing(g)];
        case Releasing(g) =>
          runners := runners - {id};
      }
    }
  }
}
