/**
 How many jobs of a store run at once while its limits stay the same, although each submission may
 configure them again (backend/asr/jobs.py, submit; backend/jobstore.py, configure_limits).
 */
module JobConcurrency {
  import opened Basics
  import opened JobStore
  import opened JobStoreRuns

  /** A run that configures the store with the same limits every time. */
  ghost predicate FixedRun(actions: seq<Action>, s: Store, maxConcurrent: nat, queueMax: nat) {
    && Reaches(actions, s)
    && forall a <- actions ::
         a.ConfigureLimits? ==> Max(1, a.maxConcurrent) == maxConcurrent && Max(1, a.queueMax) == queueMax
  }

  // ----- A short queue

  lemma {:induction false} QueueOfFixed(actions: seq<Action>, queueMax: nat)
    requires forall a <- actions :: a.ConfigureLimits? ==> Max(1, a.queueMax) == queueMax
    ensures LargestQueue(actions) <= queueMax
    decreases |actions|
  {
    if actions != [] {
      var last := |actions| - 1;
      assert actions[last] in actions;
      QueueOfFixed(actions[..last], queueMax);
    }
  }

  /** While the limits stay the same the queue limit bounds the jobs that are admitted, and so those that run. */
  lemma QueueBoundsRunning(actions: seq<Action>, s: Store, maxConcurrent: nat, queueMax: nat)
    requires FixedRun(actions, s, maxConcurrent, queueMax)
    ensures |RunningIds(s)| <= |ActiveIds(s)| <= queueMax
  {
    hide Reaches;
    QueueIsBounded(actions, s);
    QueueOfFixed(actions, queueMax);
    SubsetSize(RunningIds(s), ActiveIds(s));
  }

  // ----- A long queue

  ghost predicate Leads(s: Store, a: Action, s': Store) { Enabled(s, a) && s' == Do(s, a) }

  lemma OneMore(actions: seq<Action>, s: Store, a: Action, s': Store, maxConcurrent: nat, queueMax: nat)
    requires FixedRun(actions, s, maxConcurrent, queueMax) && Leads(s, a, s')
    requires a.ConfigureLimits? ==> Max(1, a.maxConcurrent) == maxConcurrent && Max(1, a.queueMax) == queueMax
    ensures FixedRun(actions + [a], s', maxConcurrent, queueMax)
  {
    assert (actions + [a])[..|actions|] == actions;
  }

  /** The shape of the store while job after job is started and none has ended. */
  ghost predicate AllRunning(s: Store, gens: map<string, nat>) {
    && s.jobs.Keys == s.runners.Keys == s.used == gens.Keys
    && forall x <- gens :: s.jobs[x] == Job(Running, 0.0, None, None) && s.runners[x] == Started(gens[x])
  }

  function Users(gens: map<string, nat>, g: nat): set<string> { set x <- gens | gens[x] == g }

  /** The store with one more job, at the given point of its life. */
  function WithJob(s: Store, id: string, status: Status, r: Runner): Store {
    s.(jobs := s.jobs[id := Job(status, 0.0, None, None)], runners := s.runners[id := r], used := s.used + {id})
  }

  lemma NothingToPurge(s: Store, gens: map<string, nat>)
    requires AllRunning(s, gens)
    ensures Purge(s, 0.0) == s && ActiveIds(s) == gens.Keys
  {
    assert Purge(s, 0.0).jobs == s.jobs;
  }

  lemma Submits(s: Store, gens: map<string, nat>, id: string)
    requires AllRunning(s, gens) && id !in gens && s.permits != [] && |gens| < s.queueMax
    ensures Leads(s, Submit(id, 0.0), WithJob(s, id, Queued, Spawned))
  {
    NothingToPurge(s, gens);
    hide Advance, Purge, ActiveIds;
  }

  lemma Queues(s: Store, id: string, o: Outcome)
    requires s.permits != []
    ensures Leads(WithJob(s, id, Queued, Spawned), Step(id, 0.0, o), WithJob(s, id, Queued, Waiting(|s.permits| - 1)))
  {
    assert s.runners[id := Spawned][id := Waiting(|s.permits| - 1)] == s.runners[id := Waiting(|s.permits| - 1)];
  }

  lemma Acquires(s: Store, gens: map<string, nat>, id: string, g: nat, o: Outcome)
    requires AllRunning(s, gens) && id !in gens && g < |s.permits| && |Users(gens, g)| < s.permits[g]
    ensures Leads(WithJob(s, id, Queued, Waiting(g)), Step(id, 0.0, o), WithJob(s, id, Queued, Holding(g)))
  {
    var w := WithJob(s, id, Queued, Waiting(g));
    assert InUse(w, g) == Users(gens, g) by {
      hide Enqueue, Advance;
    }
    assert s.runners[id := Waiting(g)][id := Holding(g)] == s.runners[id := Holding(g)];
  }

  lemma Starts(s: Store, id: string, g: nat, o: Outcome)
    ensures Leads(WithJob(s, id, Queued, Holding(g)), Step(id, 0.0, o), WithJob(s, id, Running, Started(g)))
  {
    assert s.runners[id := Holding(g)][id := Started(g)] == s.runners[id := Started(g)];
    assert s.jobs[id := Job(Queued, 0.0, None, None)][id := Job(Running, 0.0, None, None)]
        == s.jobs[id := Job(Running, 0.0, None, None)];
  }

  lemma OneMoreRunning(s: Store, gens: map<string, nat>, id: string, g: nat)
    requires AllRunning(s, gens) && id !in gens
    ensures AllRunning(WithJob(s, id, Running, Started(g)), gens[id := g])
  {
  }

  /** A fresh job runs after four steps, if the queue has room and the newest semaphore a permit left. */
  lemma StartJob(actions: seq<Action>, s: Store, gens: map<string, nat>, id: string, m: nat, q: nat)
    returns (longer: seq<Action>, s': Store)
    requires FixedRun(actions, s, m, q) && AllRunning(s, gens) && id !in gens && s.permits != [] && |gens| < s.queueMax
    requires |Users(gens, |s.permits| - 1)| < s.permits[|s.permits| - 1]
    ensures FixedRun(longer, s', m, q) && s' == WithJob(s, id, Running, Started(|s.permits| - 1))
    ensures AllRunning(s', gens[id := |s.permits| - 1])
  {
    var g := |s.permits| - 1;
    hide FixedRun, Leads, WithJob, AllRunning, Users;
    s' := WithJob(s, id, Running, Started(g));
    OneMoreRunning(s, gens, id, g);
    Submits(s, gens, id);
    OneMore(actions, s, Submit(id, 0.0), WithJob(s, id, Queued, Spawned), m, q);
    var step := Step(id, 0.0, Ok(""));
    longer := actions + [Submit(id, 0.0)];
    Queues(s, id, Ok(""));
    OneMore(longer, WithJob(s, id, Queued, Spawned), step, WithJob(s, id, Queued, Waiting(g)), m, q);
    longer := longer + [step];
    Acquires(s, gens, id, g, Ok(""));
    OneMore(longer, WithJob(s, id, Queued, Waiting(g)), step, WithJob(s, id, Queued, Holding(g)), m, q);
    longer := longer + [step];
    Starts(s, id, g, Ok(""));
    OneMore(longer, WithJob(s, id, Queued, Holding(g)), step, s', m, q);
    longer := longer + [step];
  }

  function Name(k: nat): string { seq(k, _ => 'a') }

  lemma ConfiguredStore(s: Store, gens: map<string, nat>, m: nat, q: nat)
    requires AllRunning(s, gens) && m >= 1 && q >= 1
    ensures
      var a := ConfigureLimits(m, q, 60.0);
      && Leads(s, a, Do(s, a)) && AllRunning(Do(s, a), gens)
      && Do(s, a).permits == s.permits + [m] && Do(s, a).queueMax == q && Do(s, a).maxConcurrent == m
  {
    hide Advance, Enqueue;
  }

  /** Configured once, the store can run as many jobs as it has permits. */
  lemma {:induction false} StartMany(m: nat, q: nat, k: nat)
    returns (actions: seq<Action>, s: Store, gens: map<string, nat>)
    requires 1 <= m < q && k <= m
    ensures FixedRun(actions, s, m, q) && AllRunning(s, gens) && |gens| == k
    ensures s.permits == [m] && s.queueMax == q && forall x <- gens :: |x| < k && gens[x] == 0
    decreases k
  {
    hide Leads, Do, Reaches;
    if k == 0 {
      gens := map[];
      EmptyRun(m, q);
      assert AllRunning(EMPTY, gens);
      ConfiguredStore(EMPTY, gens, m, q);
      actions, s := [] + [ConfigureLimits(m, q, 60.0)], Do(EMPTY, ConfigureLimits(m, q, 60.0));
      OneMore([], EMPTY, ConfigureLimits(m, q, 60.0), s, m, q);
    } else {
      var before, s0, gens0 := StartMany(m, q, k - 1);
      hide FixedRun, AllRunning;
      SubsetSize(Users(gens0, 0), gens0.Keys);
      actions, s := StartJob(before, s0, gens0, Name(k - 1), m, q);
      gens := gens0[Name(k - 1) := 0];
    }
  }

  lemma EmptyRun(m: nat, q: nat)
    ensures FixedRun([], EMPTY, m, q)
  {
  }

  lemma RunningAre(s: Store, gens: map<string, nat>)
    requires AllRunning(s, gens)
    ensures |RunningIds(s)| == |gens|
  {
    assert RunningIds(s) == gens.Keys;
  }

  /** Configured twice with the same limits, it can run one job more than they allow. */
  lemma ReconfiguringExceeds(m: nat, q: nat) returns (actions: seq<Action>, s: Store)
    requires 1 <= m < q
    ensures FixedRun(actions, s, m, q) && s.maxConcurrent == m && |s.permits| == 2 && |RunningIds(s)| == m + 1
  {
    hide Leads, Do, FixedRun, AllRunning, RunningIds;
    var before, s0, gens := StartMany(m, q, m);
    var a := ConfigureLimits(m, q, 60.0);
    ConfiguredStore(s0, gens, m, q);
    OneMore(before, s0, a, Do(s0, a), m, q);
    assert Users(gens, 1) == {};
    actions, s := StartJob(before + [a], Do(s0, a), gens, Name(m), m, q);
    RunningAre(s, gens[Name(m) := 1]);
  }

  /**
   The exact condition. While a store is only ever configured with the same limits, the jobs running
   at once never exceed `max_concurrent` if and only if the queue limit does not exceed it.
   */
  lemma MaxConcurrentHolds(m: nat, q: nat)
    requires m >= 1 && q >= 1
    ensures (forall actions: seq<Action>, s: Store :: FixedRun(actions, s, m, q) ==> |RunningIds(s)| <= m) <==> q <= m
  {
    hide FixedRun, RunningIds;
    if q <= m {
      forall actions: seq<Action>, s: Store | FixedRun(actions, s, m, q) ensures |RunningIds(s)| <= m {
        QueueBoundsRunning(actions, s, m, q);
      }
    } else {
      var actions, s := ReconfiguringExceeds(m, q);
      assert FixedRun(actions, s, m, q) && |RunningIds(s)| > m;
    }
  }
}
