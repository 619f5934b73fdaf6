/** What the job store guarantees over every interleaving of its steps. */
module JobStoreRuns {
  import opened Basics
  import opened JobStore

  datatype Action =
    | ConfigureLimits(maxConcurrent: int, queueMax: int, ttlSec: real)
    | Submit(id: string, now: real)
    | Poll(now: real)
    | Step(id: string, now: real, outcome: Outcome)
    | Progress(id: string, now: real)

  /** Job ids are never issued twice; a progress writer belongs to a payload at work. */
  predicate Enabled(s: Store, a: Action) {
    match a
    case Submit(id, _) => id !in s.used
    case Step(id, _, _) => id in s.runners
    case Progress(id, _) => id in s.runners && s.runners[id].Working? && id in s.jobs
    case _ => true
  }

  function Do(s: Store, a: Action): Store
    requires Enabled(s, a)
  {
    match a
    case ConfigureLimits(m, q, t) => Configure(s, m, q, t)
    case Submit(id, now) => Enqueue(s, id, now).0
    case Poll(now) => Purge(s, now)
    case Step(id, now, outcome) => Advance(s, id, now, outcome)
    case Progress(id, now) => Touch(s, id, now)
  }

  // ----- The invariant

  /** A job and its runner agree on how far they are; a job without a runner is finished. */
  predicate InStep(jobs: map<string, Job>, runners: map<string, Runner>, id: string) {
    if id !in runners then id in jobs ==> !IsActive(jobs[id].status)
    else
      match runners[id]
      case Releasing(_) => id in jobs ==> !IsActive(jobs[id].status)
      case Started(_) => id in jobs && jobs[id].status == Running
      case Working(_) => id in jobs && jobs[id].status == Running
      case Writing(_, _) => id in jobs && jobs[id].status == Running
      case _ => id in jobs && jobs[id].status == Queued
  }

  /** Exactly one of result and error once finished, and neither before. */
  predicate OneOutcome(job: Job) {
    match job.status
    case Succeeded => job.result.Some? && job.error == None
    case Failed => job.result == None && job.error.Some?
    case _ => job.result == None && job.error == None
  }

  /** No semaphore has given out more permits than it has. */
  ghost predicate PermitsRespected(s: Store) {
    forall g :: 0 <= g < |s.permits| ==> |InUse(s, g)| <= s.permits[g]
  }

  ghost predicate Inv(s: Store) {
    && (forall id :: id in s.jobs || id in s.runners ==> InStep(s.jobs, s.runners, id) && id in s.used)
    && (forall id <- s.jobs :: OneOutcome(s.jobs[id]))
    && (forall id <- s.runners :: !s.runners[id].Spawned? ==> s.runners[id].gen < |s.permits|)
    && PermitsRespected(s)
    && (s.runners != map[] ==> s.permits != [])
    && s.ttlSec >= 60.0 && s.queueMax >= 1
    && (s.permits != [] ==> s.permits[|s.permits| - 1] == s.maxConcurrent)
  }

  lemma EmptyInv()
    ensures Inv(EMPTY)
  {
  }

  // ----- Who holds a permit

  lemma SubsetSize<T>(a: set<T>, b: set<T>)
    requires a <= b
    ensures |a| <= |b|
  {
    assert b == a + (b - a);
  }

  /** Moving one runner adds at most that runner to the users of a generation, and only if it now holds it. */
  lemma UseAfterMove(s: Store, id: string, r: Runner, g: nat)
    ensures InUse(SetRunner(s, id, r), g) == if r.Holds(g) then InUse(s, g) + {id} else InUse(s, g) - {id}
  {
  }

  lemma UseAfterEnd(s: Store, id: string, g: nat)
    ensures InUse(EndRunner(s, id), g) == InUse(s, g) - {id}
  {
  }

  /** A runner that moves on within its generation, or leaves it, frees no room it did not have. */
  lemma MoveKeepsPermits(s: Store, s': Store, id: string, r: Runner)
    requires Inv(s) && id in s.runners && s'.runners == s.runners[id := r] && s'.permits == s.permits
    requires r.Spawned? || r.Waiting? || s.runners[id].Holds(r.gen)
             || (r.gen < |s.permits| && |InUse(s, r.gen)| < s.permits[r.gen])
    ensures PermitsRespected(s')
  {
    forall g | 0 <= g < |s'.permits| ensures |InUse(s', g)| <= s'.permits[g] {
      UseAfterMove(s, id, r, g);
      assert InUse(s', g) == InUse(SetRunner(s, id, r), g);
      SubsetSize(InUse(s, g) - {id}, InUse(s, g));
      if r.Holds(g) && s.runners[id].Holds(g) {
        assert InUse(s, g) + {id} == InUse(s, g);
      }
    }
  }

  lemma EndKeepsPermits(s: Store, id: string)
    requires Inv(s) && id in s.runners
    ensures PermitsRespected(EndRunner(s, id))
  {
    forall g | 0 <= g < |s.permits| ensures |InUse(EndRunner(s, id), g)| <= s.permits[g] {
      UseAfterEnd(s, id, g);
      SubsetSize(InUse(s, g) - {id}, InUse(s, g));
    }
  }

  // ----- Every step keeps the invariant

  lemma ConfigureKeeps(s: Store, m: int, q: int, t: real)
    requires Inv(s)
    ensures Inv(Configure(s, m, q, t))
  {
    var s' := Configure(s, m, q, t);
    forall g | 0 <= g < |s'.permits| ensures |InUse(s', g)| <= s'.permits[g] {
      assert InUse(s', g) == InUse(s, g);
      if g == |s.permits| {
        assert InUse(s, g) == {};
      }
    }
  }

  lemma PurgeKeeps(s: Store, now: real)
    requires Inv(s)
    ensures Inv(Purge(s, now)) && ActiveIds(Purge(s, now)) == ActiveIds(s)
  {
    var s' := Purge(s, now);
    forall g ensures InUse(s', g) == InUse(s, g) {
    }
    forall id | id in s'.jobs || id in s'.runners ensures InStep(s'.jobs, s'.runners, id) && id in s'.used {
      assert InStep(s.jobs, s.runners, id);
    }
  }

  lemma SubmitKeeps(s: Store, id: string, now: real)
    requires Inv(s) && id !in s.used
    ensures Inv(Enqueue(s, id, now).0)
  {
    if s.permits != [] {
      var p := Purge(s, now);
      PurgeKeeps(s, now);
      if |ActiveIds(p)| < p.queueMax {
        AdmitKeeps(p, id, now);
      }
    }
  }

  lemma AdmitKeeps(p: Store, id: string, now: real)
    requires Inv(p) && id !in p.used && p.permits != []
    ensures
      Inv(p.(jobs := p.jobs[id := Job(Queued, now, None, None)], runners := p.runners[id := Spawned],
             used := p.used + {id}))
  {
    hide InUse;
    var s' := p.(jobs := p.jobs[id := Job(Queued, now, None, None)], runners := p.runners[id := Spawned],
                 used := p.used + {id});
    forall g | 0 <= g < |p.permits| ensures |InUse(s', g)| <= p.permits[g] {
      UseAfterMove(p, id, Spawned, g);
      SameRunners(s', SetRunner(p, id, Spawned), g);
      SubsetSize(InUse(p, g) - {id}, InUse(p, g));
    }
    forall x | x in s'.jobs || x in s'.runners ensures InStep(s'.jobs, s'.runners, x) && x in s'.used {
      if x != id {
        assert InStep(p.jobs, p.runners, x);
      }
    }
  }

  lemma SameRunners(s: Store, s': Store, g: nat)
    requires s.runners == s'.runners
    ensures InUse(s, g) == InUse(s', g)
  {
  }

  /** A runner's own step leaves its job and itself in step. */
  lemma AdvanceInStep(s: Store, id: string, now: real, outcome: Outcome)
    requires id in s.runners && InStep(s.jobs, s.runners, id) && s.permits != []
    requires id in s.jobs ==> OneOutcome(s.jobs[id])
    requires !s.runners[id].Spawned? ==> s.runners[id].gen < |s.permits|
    ensures
      var s' := Advance(s, id, now, outcome);
      && InStep(s'.jobs, s'.runners, id) && (id in s'.jobs ==> OneOutcome(s'.jobs[id]))
      && (id in s'.runners && !s'.runners[id].Spawned? ==> s'.runners[id].gen < |s.permits|)
      && s'.jobs.Keys == s.jobs.Keys && s'.runners.Keys <= s.runners.Keys
      && (forall x :: x != id && x in s.jobs ==> s'.jobs[x] == s.jobs[x])
      && (forall x :: x != id && x in s.runners ==> x in s'.runners && s'.runners[x] == s.runners[x])
      && s' == s.(jobs := s'.jobs, runners := s'.runners)
  {
    hide InUse;
  }

  lemma AdvancePermits(s: Store, id: string, now: real, outcome: Outcome)
    requires Inv(s) && id in s.runners
    ensures PermitsRespected(Advance(s, id, now, outcome))
  {
    hide InUse, PermitsRespected, InStep, OneOutcome;
    var s' := Advance(s, id, now, outcome);
    if id in s'.runners {
      assert s'.runners == s.runners[id := s'.runners[id]];
      MoveKeepsPermits(s, s', id, s'.runners[id]);
    } else {
      EndKeepsPermits(s, id);
    }
  }

  lemma AdvanceKeeps(s: Store, id: string, now: real, outcome: Outcome)
    requires Inv(s) && id in s.runners
    ensures Inv(Advance(s, id, now, outcome))
  {
    hide Advance, PermitsRespected, OneOutcome;
    AdvanceInStep(s, id, now, outcome);
    AdvancePermits(s, id, now, outcome);
    var s' := Advance(s, id, now, outcome);
    forall x | x in s'.jobs || x in s'.runners ensures InStep(s'.jobs, s'.runners, x) && x in s'.used {
      if x != id {
        assert InStep(s.jobs, s.runners, x);
      }
    }
  }

  lemma StepKeeps(s: Store, a: Action)
    requires Inv(s) && Enabled(s, a)
    ensures Inv(Do(s, a))
  {
    match a {
      case ConfigureLimits(m, q, t) => ConfigureKeeps(s, m, q, t);
      case Submit(id, now) => SubmitKeeps(s, id, now);
      case Poll(now) => PurgeKeeps(s, now);
      case Step(id, now, outcome) => AdvanceKeeps(s, id, now, outcome);
      case Progress(id, now) => TouchKeeps(s, id, now);
    }
  }

  lemma TouchKeeps(s: Store, id: string, now: real)
    requires Inv(s) && id in s.jobs && id in s.runners
    ensures Inv(Touch(s, id, now))
  {
    var s' := Touch(s, id, now);
    forall g ensures InUse(s', g) == InUse(s, g) {
    }
    forall x | x in s'.jobs || x in s'.runners ensures InStep(s'.jobs, s'.runners, x) && x in s'.used {
      assert InStep(s.jobs, s.runners, x);
    }
  }

  // ----- Runs

  ghost predicate Reaches(actions: seq<Action>, s: Store)
    decreases |actions|
  {
    if actions == [] then s == EMPTY
    else
      var last := |actions| - 1;
      exists s0 :: Reaches(actions[..last], s0) && Enabled(s0, actions[last]) && s == Do(s0, actions[last])
  }

  lemma {:induction false} EveryRun(actions: seq<Action>, s: Store)
    requires Reaches(actions, s)
    ensures Inv(s)
    decreases |actions|
  {
    if actions == [] {
      EmptyInv();
    } else {
      hide Inv, Do, Enabled;
      var last := |actions| - 1;
      var s0 :| Reaches(actions[..last], s0) && Enabled(s0, actions[last]) && s == Do(s0, actions[last]);
      EveryRun(actions[..last], s0);
      StepKeeps(s0, actions[last]);
    }
  }

  // ----- Concurrency

  function RunningIn(s: Store, gen: nat): set<string> {
    set id <- s.jobs | s.jobs[id].status == Running && id in s.runners && s.runners[id].Holds(gen)
  }

  function RunningIds(s: Store): set<string> { set id <- s.jobs | s.jobs[id].status == Running }

  /** Jobs running under one semaphore never outnumber its permits. */
  lemma ConcurrencyPerGeneration(actions: seq<Action>, s: Store, gen: nat)
    requires Reaches(actions, s) && gen < |s.permits|
    ensures |RunningIn(s, gen)| <= s.permits[gen]
  {
    EveryRun(actions, s);
    hide Reaches;
    SubsetSize(RunningIn(s, gen), InUse(s, gen));
  }

  function Sum(permits: seq<nat>): nat {
    if permits == [] then 0 else Sum(permits[..|permits| - 1]) + permits[|permits| - 1]
  }

  function RunningBelow(s: Store, n: nat): set<string> {
    set id <- s.jobs |
      s.jobs[id].status == Running && id in s.runners && !s.runners[id].Spawned? && s.runners[id].gen < n
  }

  lemma {:induction false} BelowIsBounded(s: Store, n: nat)
    requires Inv(s) && n <= |s.permits|
    ensures |RunningBelow(s, n)| <= Sum(s.permits[..n])
  {
    if n == 0 {
      assert RunningBelow(s, 0) == {};
    } else {
      BelowIsBounded(s, n - 1);
      assert s.permits[..n][..n - 1] == s.permits[..n - 1];
      forall id | id in RunningBelow(s, n) ensures id in RunningBelow(s, n - 1) + InUse(s, n - 1) {
        assert InStep(s.jobs, s.runners, id);
      }
      SubsetSize(RunningBelow(s, n), RunningBelow(s, n - 1) + InUse(s, n - 1));
    }
  }

  /**
   Over the whole store the running jobs are bounded by the permits of all semaphores ever
   installed; that is the configured maximum as long as the limits were configured only once.
   */
  lemma ConcurrencyOfStore(actions: seq<Action>, s: Store)
    requires Reaches(actions, s)
    ensures |RunningIds(s)| <= Sum(s.permits)
    ensures |s.permits| == 1 ==> |RunningIds(s)| <= s.maxConcurrent
  {
    EveryRun(actions, s);
    forall id | id in RunningIds(s) ensures id in RunningBelow(s, |s.permits|) {
      assert InStep(s.jobs, s.runners, id);
    }
    assert s.permits[..|s.permits|] == s.permits;
    BelowIsBounded(s, |s.permits|);
    SubsetSize(RunningIds(s), RunningBelow(s, |s.permits|));
    if |s.permits| == 1 {
      assert s.permits[..0] == [];
      assert Sum(s.permits) == s.permits[0];
    }
  }

  // ----- The life of a job

  /** Queued, then running, then one end. */
  predicate MayBecome(from: Status, to: Status) {
    from == to || (from == Queued && to == Running) || (from == Running && (to == Succeeded || to == Failed))
  }

  /**
   In one step a job only moves forward, a finished one does not change at all, and only a finished
   one whose runner has done its last write can disappear, at a purge later than its time to live; an
   id that is gone stays gone.
   */
  lemma JobsMoveForward(s: Store, a: Action, id: string)
    requires Inv(s) && Enabled(s, a) && id in s.used
    ensures
      var s' := Do(s, a);
      && id in s'.used
      && (id in s.jobs && id in s'.jobs ==>
           MayBecome(s.jobs[id].status, s'.jobs[id].status)
           && (IsActive(s.jobs[id].status) || s'.jobs[id] == s.jobs[id]))
      && (id in s.jobs && id !in s'.jobs ==>
           && (s.jobs[id].status == Succeeded || s.jobs[id].status == Failed)
           && (id !in s.runners || s.runners[id].Releasing?)
           && (a.Poll? || a.Submit?) && s.jobs[id].updatedAt + s.ttlSec < a.now)
      && (id !in s.jobs ==> id !in s'.jobs)
  {
    if id in s.jobs || id in s.runners {
      assert InStep(s.jobs, s.runners, id);
    }
  }

  /** A finished job holds a result or an error, never both and never neither. */
  lemma FinishedJobs(actions: seq<Action>, s: Store, id: string)
    requires Reaches(actions, s) && id in s.jobs
    ensures s.jobs[id].status == Succeeded <==> s.jobs[id].result.Some?
    ensures s.jobs[id].status == Failed <==> s.jobs[id].error.Some?
  {
    EveryRun(actions, s);
  }

  // ----- The queue

  /** The largest queue limit configured so far, and zero before the first. */
  function LargestQueue(actions: seq<Action>): nat {
    if actions == [] then 0
    else
      var last := actions[|actions| - 1];
      var before := LargestQueue(actions[..|actions| - 1]);
      if last.ConfigureLimits? then Max(before, Max(1, last.queueMax)) else before
  }

  lemma StepKeepsQueue(s: Store, a: Action)
    requires Inv(s) && Enabled(s, a)
    ensures a.Submit? ==> |ActiveIds(Do(s, a))| <= Max(|ActiveIds(s)|, s.queueMax)
    ensures !a.Submit? ==> ActiveIds(Do(s, a)) <= ActiveIds(s)
    ensures Do(s, a).queueMax == if a.ConfigureLimits? then Max(1, a.queueMax) else s.queueMax
  {
    if a.Submit? {
      PurgeKeeps(s, a.now);
      var p, s' := Purge(s, a.now), Do(s, a);
      SubsetSize(ActiveIds(s'), ActiveIds(p) + {a.id});
    } else if a.Step? {
      assert InStep(s.jobs, s.runners, a.id);
    } else if a.Progress? {
      assert InStep(s.jobs, s.runners, a.id);
    }
  }

  /** Admitted active jobs never exceed the largest queue limit configured so far. */
  lemma {:induction false} QueueIsBounded(actions: seq<Action>, s: Store)
    requires Reaches(actions, s)
    ensures |ActiveIds(s)| <= LargestQueue(actions)
    ensures s.permits != [] ==> s.queueMax <= LargestQueue(actions)
    decreases |actions|
  {
    if actions == [] {
      assert ActiveIds(s) == {};
    } else {
      var last := |actions| - 1;
      var s0 :| Reaches(actions[..last], s0) && Enabled(s0, actions[last]) && s == Do(s0, actions[last]);
      EveryRun(actions[..last], s0);
      QueueIsBounded(actions[..last], s0);
      StepKeepsQueue(s0, actions[last]);
      StepKeepsPermitted(s0, actions[last]);
      SubsetSize(ActiveIds(s) * ActiveIds(s0), ActiveIds(s0));
      if !actions[last].Submit? {
        assert ActiveIds(s) * ActiveIds(s0) == ActiveIds(s);
      }
    }
  }

  lemma StepKeepsPermitted(s: Store, a: Action)
    requires Enabled(s, a)
    ensures a.ConfigureLimits? || Do(s, a).permits == s.permits
    ensures a.Submit? && s.permits == [] ==> Do(s, a) == s
  {
  }
}
