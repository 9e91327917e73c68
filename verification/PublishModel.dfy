/**
 The concurrent publish runner of scripts/ci-release-publish.ts as a transition system.

 Every job is an asynchronous task. Between two `await`s a task runs without
 interruption, so one step of the model is one such stretch of one task, and the
 only nondeterminism is which task runs next. The state holds what the source
 keeps in closures: the semaphore's counter and queue, the keyed mutex's tails and
 resolved promises, and where each task is suspended.
 */
module PublishModel {
  import opened Prelude

  /** How the pack phase of a job ends: before the pack lock is asked for, or after it was released. */
  datatype PackOutcome = Packs | FailsBeforeLock | FailsAfterLock

  /** The pack phase: the mutex key it packs under, if any, and how it ends. */
  datatype PackPhase = PackPhase(lock: Option<string>, outcome: PackOutcome)

  datatype PublishJob = PublishJob(name: string, dependsOn: seq<string>, pack: Option<PackPhase>, publishes: bool)

  /** Where a task is suspended. */
  datatype Phase =
    | Idle
    | PackQueued                      // in the semaphore's queue, before packing
    | PackGranted                     // was handed a slot, has not resumed yet
    | Packing                         // packing, before the pack lock
    | LockQueued(prev: Option<nat>)   // holds a slot, awaits the previous holder of its key
    | LockHeld                        // inside the critical section of its key
    | PackDone                        // past the lock, still holds the slot
    | DepsWait                        // awaits its prerequisites, holds no slot
    | Discarding                      // a prerequisite failed
    | PublishQueued
    | PublishGranted
    | Publishing
    | Finishing(ok: bool)             // slot returned, outcome known, block not yet written
    | Settled(ok: bool)

  /** The jobs and the semaphore's limit; neither changes during a run. */
  datatype World = World(jobs: seq<PublishJob>, limit: int)

  /**
   State of a run. `arrivals`, `handed` and `lockArrivals` record the past: who entered the semaphore's queue,
   who was handed a slot from it, and who asked for a keyed lock, each in order.
   */
  datatype Sys = Sys(
    phase: seq<Phase>,
    active: int, waiting: seq<nat>,
    tails: map<string, nat>, released: set<nat>,
    written: seq<nat>,
    arrivals: seq<nat>, handed: seq<nat>, lockArrivals: seq<nat>)

  predicate DistinctNames(jobs: seq<PublishJob>) {
    forall i, j :: 0 <= i < j < |jobs| ==> jobs[i].name != jobs[j].name
  }

  predicate WellFormed(w: World) {
    w.limit >= 1 && DistinctNames(w.jobs)
  }

  /** `d` is a known prerequisite of `j`: named in its `dependsOn`, and not the job itself. */
  predicate Prereq(jobs: seq<PublishJob>, j: nat, d: nat) {
    j < |jobs| && d < |jobs| && jobs[d].name in jobs[j].dependsOn && jobs[d].name != jobs[j].name
  }

  predicate HoldsSlot(p: Phase) {
    p.PackGranted? || p.Packing? || p.LockQueued? || p.LockHeld? || p.PackDone? || p.PublishGranted? || p.Publishing?
  }

  predicate Queued(p: Phase) {
    p.PackQueued? || p.PublishQueued?
  }

  /** The phase a queued task is in once a slot was handed to it. */
  function Granted(p: Phase): Phase {
    if p.PublishQueued? then PublishGranted else PackGranted
  }

  predicate PackOk(job: PublishJob) {
    job.pack.Some? ==> job.pack.value.outcome.Packs?
  }

  function LockKey(job: PublishJob): Option<string> {
    if job.pack.Some? then job.pack.value.lock else None
  }

  function Init(w: World): Sys {
    Sys(seq(|w.jobs|, _ => Idle), 0, [], map[], {}, [], [], [], [])
  }

  // ---------------------------------------------------------------- steps

  /** Entering the semaphore: take a free slot and run, or join the queue. */
  function Enter(w: World, s: Sys, j: nat, run: Phase, wait: Phase): Sys
    requires j < |s.phase|
  {
    if s.active >= w.limit then
      s.(phase := s.phase[j := wait], waiting := s.waiting + [j], arrivals := s.arrivals + [j])
    else
      s.(phase := s.phase[j := run], active := s.active + 1)
  }

  /** Leaving the semaphore: hand the slot to the head of the queue, or free it. */
  function Leave(s: Sys, j: nat, next: Phase): Sys
    requires j < |s.phase|
  {
    var phase := s.phase[j := next];
    if s.waiting == [] then
      s.(phase := phase, active := s.active - 1)
    else if s.waiting[0] < |phase| then
      var head := s.waiting[0];
      s.(phase := phase[head := Granted(phase[head])], waiting := s.waiting[1..], handed := s.handed + [head])
    else
      s
  }

  /** Calling the keyed mutex: remember the previous tail of the key and become the new one. */
  function Knock(s: Sys, j: nat, key: string): Sys
    requires j < |s.phase|
  {
    var prev := if key in s.tails then Some(s.tails[key]) else None;
    s.(phase := s.phase[j := LockQueued(prev)], tails := s.tails[key := j], lockArrivals := s.lockArrivals + [j])
  }

  predicate AllSettled(jobs: seq<PublishJob>, phase: seq<Phase>, j: nat) {
    forall d | 0 <= d < |jobs| && d < |phase| :: Prereq(jobs, j, d) ==> phase[d].Settled?
  }

  predicate AnyFailed(jobs: seq<PublishJob>, phase: seq<Phase>, j: nat) {
    exists d | 0 <= d < |jobs| && d < |phase| :: Prereq(jobs, j, d) && phase[d] == Settled(false)
  }

  /** Whether the promise task `j` awaits has resolved. */
  predicate MayMove(jobs: seq<PublishJob>, phase: seq<Phase>, released: set<nat>, j: nat) {
    j < |jobs| == |phase| &&
    match phase[j]
    case PackQueued | PublishQueued | Settled(_) => false
    case LockQueued(prev) => prev.Some? ==> prev.value in released
    case DepsWait => AllSettled(jobs, phase, j)
    case _ => true
  }

  predicate CanStep(w: World, s: Sys, j: nat) {
    MayMove(w.jobs, s.phase, s.released, j)
  }

  /** The next uninterrupted stretch of task `j`. */
  function Step(w: World, s: Sys, j: nat): Sys
    requires CanStep(w, s, j)
  {
    var job := w.jobs[j];
    match s.phase[j]
    case Idle =>
      if job.pack.None? then s.(phase := s.phase[j := DepsWait]) else Enter(w, s, j, Packing, PackQueued)
    case PackGranted => s.(phase := s.phase[j := Packing])
    case Packing =>
      if job.pack.None? || job.pack.value.outcome.FailsBeforeLock? || job.pack.value.lock.None?
      then s.(phase := s.phase[j := PackDone])
      else Knock(s, j, job.pack.value.lock.value)
    case LockQueued(_) => s.(phase := s.phase[j := LockHeld])
    case LockHeld => s.(phase := s.phase[j := PackDone], released := s.released + {j})
    case PackDone => Leave(s, j, if PackOk(job) then DepsWait else Finishing(false))
    case DepsWait =>
      if AnyFailed(w.jobs, s.phase, j) then s.(phase := s.phase[j := Discarding])
      else Enter(w, s, j, Publishing, PublishQueued)
    case Discarding => s.(phase := s.phase[j := Finishing(false)])
    case PublishGranted => s.(phase := s.phase[j := Publishing])
    case Publishing => Leave(s, j, Finishing(job.publishes))
    case Finishing(ok) => s.(phase := s.phase[j := Settled(ok)], written := s.written + [j])
    case _ => s
  }

  /** The state after a schedule, which names the task that runs at each step; None if some step is not enabled. */
  function Run(w: World, schedule: seq<nat>): Option<Sys> {
    if schedule == [] then Some(Init(w))
    else
      var before := Run(w, schedule[..|schedule| - 1]);
      var j := schedule[|schedule| - 1];
      if before.Some? && CanStep(w, before.value, j) then Some(Step(w, before.value, j)) else None
  }

  predicate Done(w: World, s: Sys) {
    |s.phase| == |w.jobs| && forall j | 0 <= j < |s.phase| :: s.phase[j].Settled?
  }

  // ---------------------------------------------------------------- what a run should return

  predicate OwnFails(job: PublishJob) {
    !PackOk(job) || !job.publishes
  }

  /** A chain of prerequisites. */
  ghost predicate Chain(jobs: seq<PublishJob>, p: seq<nat>) {
    |p| > 0 && (forall i :: 0 <= i < |p| ==> p[i] < |jobs|)
    && forall i :: 0 <= i < |p| - 1 ==> Prereq(jobs, p[i], p[i + 1])
  }

  /** `j` fails by itself, or depends, through any number of prerequisites, on a job that does. */
  ghost predicate Doomed(jobs: seq<PublishJob>, j: nat) {
    exists p :: Chain(jobs, p) && p[0] == j && OwnFails(jobs[p[|p| - 1]])
  }

  /** A prerequisite of `j` will not be published. */
  ghost predicate Blocked(jobs: seq<PublishJob>, j: nat) {
    exists d: nat :: Prereq(jobs, j, d) && Doomed(jobs, d)
  }

  /** Names of the jobs `bad` selects, in input order. */
  ghost function Names(jobs: seq<PublishJob>, bad: nat -> bool): seq<string> {
    if jobs == [] then []
    else
      var last := |jobs| - 1;
      Names(jobs[..last], bad) + if bad(last) then [jobs[last].name] else []
  }

  /** Failed job names in input order, as the run returns them. */
  function Failed(jobs: seq<PublishJob>, phase: seq<Phase>): seq<string>
    requires |jobs| == |phase|
  {
    if jobs == [] then []
    else
      var last := |jobs| - 1;
      Failed(jobs[..last], phase[..last]) + if phase[last] == Settled(false) then [jobs[last].name] else []
  }

  ghost function Expected(jobs: seq<PublishJob>): seq<string> {
    Names(jobs, (j: nat) => Doomed(jobs, j))
  }
}
