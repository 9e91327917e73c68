/** The publish runner with its mutable objects: every stretch of a task is one step of PublishModel. */
module PublishRun {
  import opened Prelude
  import opened PublishModel
  import opened PublishInvariants
  import opened PublishTheorems
  import opened DependencyGraph
  import CycleCheck

  /** FIFO counting semaphore. A leaving section hands its slot to the head of the queue. */
  class Semaphore {
    const limit: int
    var active: int
    var waiting: seq<nat>

    constructor (limit: int)
      ensures this.limit == limit && active == 0 && waiting == []
    {
      this.limit := limit;
      active := 0;
      waiting := [];
    }

    /** True when the task got a slot at once, false when it queued. */
    method Enter(task: nat) returns (running: bool)
      modifies this
      ensures running == (old(active) < limit)
      ensures running ==> active == old(active) + 1 && waiting == old(waiting)
      ensures !running ==> active == old(active) && waiting == old(waiting) + [task]
    {
      running := active < limit;
      if !running {
        waiting := waiting + [task];
      } else {
        active := active + 1;
      }
    }

    /** The task the slot was handed to, if any waited. */
    method Leave() returns (next: Option<nat>)
      modifies this
      ensures old(waiting) == [] ==> next == None && active == old(active) - 1 && waiting == []
      ensures old(waiting) != [] ==>
                next == Some(old(waiting)[0]) && waiting == old(waiting)[1..] && active == old(active)
    {
      if waiting != [] {
        next := Some(waiting[0]);
        waiting := waiting[1..];
      } else {
        next := None;
        active := active - 1;
      }
    }
  }

  /** Keyed mutex: a chain of promises per key, of which only the last is kept. */
  class KeyedMutex {
    var tails: map<string, nat>
    var released: set<nat>

    constructor ()
      ensures tails == map[] && released == {}
    {
      tails := map[];
      released := {};
    }

    /** Become the tail of the key; the result is the task to await. */
    method Knock(task: nat, key: string) returns (prev: Option<nat>)
      modifies this
      ensures prev == if key in old(tails) then Some(old(tails)[key]) else None
      ensures tails == old(tails)[key := task] && released == old(released)
    {
      prev := if key in tails then Some(tails[key]) else None;
      tails := tails[key := task];
    }

    method Release(task: nat)
      modifies this
      ensures released == old(released) + {task} && tails == old(tails)
    {
      released := released + {task};
    }
  }

  /** A run in progress. The ghost fields record the past for the invariants. */
  class Runner {
    const world: World
    const slot: Semaphore
    const locks: KeyedMutex
    var phase: seq<Phase>
    var failed: set<nat>
    var written: seq<nat>
    ghost var arrivals: seq<nat>
    ghost var handed: seq<nat>
    ghost var lockArrivals: seq<nat>

    ghost function State(): Sys
      reads this, slot, locks
    {
      Sys(phase, slot.active, slot.waiting, locks.tails, locks.released, written, arrivals, handed, lockArrivals)
    }

    /** The failed set holds exactly the tasks that settled with a failure. */
    ghost predicate Valid()
      reads this, slot, locks
    {
      && slot.limit == world.limit
      && WellFormed(world) && SlotInv(world, State())
      && forall j: nat :: j in failed <==> j < |phase| && phase[j] == Settled(false)
    }

    constructor (world: World)
      requires WellFormed(world)
      ensures fresh(slot) && fresh(locks) && this.world == world
      ensures State() == Init(world) && Valid()
    {
      this.world := world;
      slot := new Semaphore(world.limit);
      locks := new KeyedMutex();
      phase := seq(|world.jobs|, _ => Idle);
      failed := {};
      written := [];
      arrivals, handed, lockArrivals := [], [], [];
      new;
      InvInit(world);
    }

    method EnterSlot(j: nat, run: Phase, wait: Phase)
      requires j < |phase| && slot.limit == world.limit
      modifies this`phase, this`arrivals, slot
      ensures State() == Enter(world, old(State()), j, run, wait)
    {
      var running := slot.Enter(j);
      if running {
        phase := phase[j := run];
      } else {
        phase := phase[j := wait];
        arrivals := arrivals + [j];
      }
    }

    method LeaveSlot(j: nat, next: Phase)
      requires SlotInv(world, State()) && j < |phase| && HoldsSlot(phase[j])
      modifies this`phase, this`handed, slot
      ensures State() == Leave(old(State()), j, next)
    {
      var granted := slot.Leave();
      phase := phase[j := next];
      if granted.Some? {
        phase := phase[granted.value := Granted(phase[granted.value])];
        handed := handed + [granted.value];
      }
    }

    /** The stretches up to and including the critical section of the pack lock. */
    method AdvancePacking(j: nat)
      requires CanStep(world, State(), j) && BeforePacked(phase[j]) && !phase[j].PackDone?
      requires slot.limit == world.limit
      modifies this`phase, this`arrivals, this`lockArrivals, slot, locks
      ensures State() == Step(world, old(State()), j)
    {
      var job := world.jobs[j];
      if phase[j].Idle? {
        if job.pack.None? {
          phase := phase[j := DepsWait];
        } else {
          EnterSlot(j, Packing, PackQueued);
        }
      } else if phase[j].PackGranted? {
        phase := phase[j := Packing];
      } else if phase[j].Packing? {
        if job.pack.None? || job.pack.value.outcome.FailsBeforeLock? || job.pack.value.lock.None? {
          phase := phase[j := PackDone];
        } else {
          var prev := locks.Knock(j, job.pack.value.lock.value);
          phase := phase[j := LockQueued(prev)];
          lockArrivals := lockArrivals + [j];
        }
      } else if phase[j].LockQueued? {
        phase := phase[j := LockHeld];
      } else {
        locks.Release(j);
        phase := phase[j := PackDone];
      }
    }

    /** The stretches from there to the end of the publish section. */
    method AdvancePublishing(j: nat)
      requires CanStep(world, State(), j) && !phase[j].Finishing? && (!BeforePacked(phase[j]) || phase[j].PackDone?)
      requires slot.limit == world.limit && SlotInv(world, State())
      modifies this`phase, this`arrivals, this`handed, slot
      ensures State() == Step(world, old(State()), j)
    {
      var job := world.jobs[j];
      if phase[j].PackDone? {
        LeaveSlot(j, if PackOk(job) then DepsWait else Finishing(false));
      } else if phase[j].DepsWait? {
        if AnyFailed(world.jobs, phase, j) {
          phase := phase[j := Discarding];
        } else {
          EnterSlot(j, Publishing, PublishQueued);
        }
      } else if phase[j].Discarding? {
        phase := phase[j := Finishing(false)];
      } else if phase[j].PublishGranted? {
        phase := phase[j := Publishing];
      } else {
        LeaveSlot(j, Finishing(job.publishes));
      }
    }

    /** Record the outcome, write the block and resolve the promise the dependents await. */
    method Settle(j: nat)
      requires CanStep(world, State(), j) && phase[j].Finishing?
      modifies this`phase, this`failed, this`written
      ensures State() == Step(world, old(State()), j)
      ensures failed == old(failed) + if old(phase)[j].ok then {} else {j}
    {
      var ok := phase[j].ok;
      if !ok {
        failed := failed + {j};
      }
      written := written + [j];
      phase := phase[j := Settled(ok)];
    }

    /** Run task `j` until it awaits something again. */
    method Advance(j: nat)
      requires Valid() && CanStep(world, State(), j)
      modifies this, slot, locks
      ensures State() == Step(world, old(State()), j)
      ensures Valid()
    {
      SlotInvStep(world, State(), j);
      SettledAfterStep(world, State(), j);
      if phase[j].Finishing? {
        Settle(j);
      } else if BeforePacked(phase[j]) && !phase[j].PackDone? {
        AdvancePacking(j);
      } else {
        AdvancePublishing(j);
      }
    }

    /** Names of the failed jobs, in input order. */
    method FailedNames() returns (names: seq<string>)
      requires Valid()
      ensures names == Failed(world.jobs, phase)
    {
      names := [];
      for i := 0 to |world.jobs|
        invariant names == Failed(world.jobs[..i], phase[..i])
      {
        assert world.jobs[..i + 1][..i] == world.jobs[..i] && phase[..i + 1][..i] == phase[..i];
        if i in failed {
          names := names + [world.jobs[i].name];
        }
      }
      assert world.jobs[..|world.jobs|] == world.jobs && phase[..|phase|] == phase;
    }
  }

  /** `new Map(jobs.map(job => [job.name, job]))`, keeping the dependencies. */
  method BuildByName(jobs: seq<PublishJob>) returns (graph: Graph, names: seq<string>)
    ensures graph == ByName(jobs)
    ensures forall n :: n in names <==> n in graph
  {
    graph, names := map[], [];
    for i := 0 to |jobs|
      invariant graph == ByName(jobs[..i])
      invariant forall n :: n in names <==> n in graph
    {
      assert jobs[..i + 1][..i] == jobs[..i];
      graph := graph[jobs[i].name := jobs[i].dependsOn];
      names := names + [jobs[i].name];
    }
    assert jobs[..|jobs|] == jobs;
  }

  /** Let an arbitrary task that can move do so until every job settled: `schedule` is who moved. */
  method Drive(world: World) returns (runner: Runner, ghost schedule: seq<nat>)
    requires WellFormed(world) && Acyclic(ByName(world.jobs))
    ensures fresh(runner) && fresh(runner.slot) && fresh(runner.locks) && runner.world == world
    ensures runner.Valid() && Inv(world, runner.State()) && Done(world, runner.State())
    ensures Run(world, schedule) == Some(runner.State())
  {
    runner := new Runner(world);
    schedule := [];
    InvInit(world);
    while exists j: nat :: j < |world.jobs| && !runner.phase[j].Settled?
      invariant fresh(runner) && fresh(runner.slot) && fresh(runner.locks) && runner.world == world
      invariant runner.Valid() && Inv(world, runner.State())
      invariant Run(world, schedule) == Some(runner.State())
      decreases Measure(runner.phase)
    {
      ProgressFromInv(world, runner.State());
      var j: nat :| j < |world.jobs| && MayMove(world.jobs, runner.phase, runner.locks.released, j);
      StepDecreases(world, runner.State(), j);
      InvStep(world, runner.State(), j);
      RunOn(world, schedule, j);
      runner.Advance(j);
      schedule := schedule + [j];
    }
  }

  lemma {:induction false} RunOn(w: World, schedule: seq<nat>, j: nat)
    requires Run(w, schedule).Some? && CanStep(w, Run(w, schedule).value, j)
    ensures Run(w, schedule + [j]) == Some(Step(w, Run(w, schedule).value, j))
  {
    hide CanStep, Step;
    assert (schedule + [j])[..|schedule|] == schedule;
  }

  /**
   Err with a closing chain exactly when the dependencies have a cycle. Otherwise the run ends, whatever task moves
   next at each point, and returns the jobs that fail by themselves or depend on one that does, in input order;
   every job has written one block. It is a run of the model with `concurrency` slots, and at least one.
   */
  method RunPublishJobs(jobs: seq<PublishJob>, concurrency: int)
    returns (r: Result<seq<string>, seq<string>>, blocks: seq<nat>, ghost schedule: seq<nat>)
    requires DistinctNames(jobs)
    ensures r.Ok? <==> Acyclic(ByName(jobs))
    ensures r.Err? ==> Closes(ByName(jobs), r.error) && blocks == []
    ensures r.Ok? ==> r.value == Expected(jobs)
    ensures r.Ok? ==> Distinct(blocks) && forall j: nat :: j in blocks <==> j < |jobs|
    ensures r.Ok? ==> var run := Run(World(jobs, if concurrency >= 1 then concurrency else 1), schedule);
                      run.Some? && |run.value.phase| == |jobs| && r.value == Failed(jobs, run.value.phase) && blocks == run.value.written
  {
    blocks, schedule := [], [];
    var graph, names := BuildByName(jobs);
    var check := CycleCheck.AssertAcyclic(graph, names);
    if check.Err? {
      return Err(check.error), blocks, schedule;
    }
    var world := World(jobs, if concurrency > 1 then concurrency else 1);
    var runner: Runner;
    runner, schedule := Drive(world);
    ResultFromInv(world, runner.State());
    var failedNames := runner.FailedNames();
    return Ok(failedNames), runner.written, schedule;
  }
}
