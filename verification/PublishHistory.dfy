/** What a job of the publish runner has been through: no stage is skipped (scripts/ci-release-publish.ts). */
module PublishHistory {
  import opened Prelude
  import opened PublishModel
  import opened PublishInvariants

  /** What a job can be seen to do. */
  datatype Stage = PackStage | LockStage | WaitStage | DiscardStage | PublishStage

  function StageOf(p: Phase): set<Stage> {
    match p
    case Packing => {PackStage}
    case LockHeld => {LockStage}
    case DepsWait => {WaitStage}
    case Discarding => {DiscardStage}
    case Publishing => {PublishStage}
    case _ => {}
  }

  /** The stages task `j` has been in, at some point of the run. */
  ghost function Visited(w: World, schedule: seq<nat>, j: nat): set<Stage>
    requires Run(w, schedule).Some?
  {
    var s := Run(w, schedule).value;
    (if j < |s.phase| then StageOf(s.phase[j]) else {})
    + if schedule == [] then {} else Visited(w, schedule[..|schedule| - 1], j)
  }

  /** The stages of a pack phase, which takes its lock unless it fails before. */
  function PackStages(jobs: seq<PublishJob>, j: nat): set<Stage>
    requires j < |jobs|
  {
    (if jobs[j].pack.Some? then {PackStage} else {}) + if TakesLock(jobs, j) then {LockStage} else {}
  }

  /** The stages a job goes through to its end: it publishes exactly if it packed and no prerequisite is doomed. */
  ghost function AllStages(jobs: seq<PublishJob>, j: nat): set<Stage>
    requires j < |jobs|
  {
    PackStages(jobs, j)
    + if !PackOk(jobs[j]) then {} else {WaitStage} + if Blocked(jobs, j) then {DiscardStage} else {PublishStage}
  }

  /** The stages a job has been through when it is in a phase. */
  ghost function StagesAt(jobs: seq<PublishJob>, j: nat, p: Phase): set<Stage>
    requires j < |jobs|
  {
    match p
    case Idle | PackQueued | PackGranted => {}
    case Packing | LockQueued(_) => {PackStage}
    case LockHeld | PackDone => PackStages(jobs, j)
    case DepsWait | PublishQueued | PublishGranted => PackStages(jobs, j) + {WaitStage}
    case Discarding => PackStages(jobs, j) + {WaitStage, DiscardStage}
    case Publishing => PackStages(jobs, j) + {WaitStage, PublishStage}
    case Finishing(_) | Settled(_) => AllStages(jobs, j)
  }

  /** A step of another task can grant a slot; nothing else changes. */
  lemma {:induction false} StagesOfOther(w: World, s: Sys, i: nat, j: nat)
    requires SlotInv(w, s) && CanStep(w, s, i) && i != j && j < |w.jobs|
    ensures var t := Step(w, s, i);
            && j < |s.phase| == |t.phase| && StagesAt(w.jobs, j, t.phase[j]) == StagesAt(w.jobs, j, s.phase[j])
            && StageOf(t.phase[j]) <= StageOf(s.phase[j])
  {
    StepPhases(w, s, i);
    assert j < |s.phase|;
    hide *;
    if Step(w, s, i).phase[j] != s.phase[j] {
      GrantKeepsStages(w.jobs, j, s.phase[j]);
    }
  }

  lemma {:induction false} GrantKeepsStages(jobs: seq<PublishJob>, j: nat, p: Phase)
    requires j < |jobs| && Queued(p)
    ensures StagesAt(jobs, j, Granted(p)) == StagesAt(jobs, j, p) && StageOf(Granted(p)) <= StageOf(p)
  {
    hide PackStages, AllStages;
  }

  /** Past packing and not in its lock, a job that has a lock to take has taken and released it. */
  lemma {:induction false} LockTaken(w: World, s: Sys, j: nat)
    requires LockArrivals(w, s) && j < |s.phase|
    ensures InLock(s.phase[j]) ==> TakesLock(w.jobs, j)
    ensures TakesLock(w.jobs, j) && !Early(s.phase[j]) ==>
              j in s.lockArrivals && (!InLock(s.phase[j]) ==> j in s.released)
  {
    if j in s.lockArrivals {
      var a :| 0 <= a < |s.lockArrivals| && s.lockArrivals[a] == j;
      assert ArrivedAt(w, s, s.lockArrivals[a]);
    }
  }

  /** The life of a job, phase by phase; what it may not skip stands on the right. */
  ghost predicate Leads(jobs: seq<PublishJob>, j: nat, p: Phase, q: Phase)
    requires j < |jobs|
  {
    match p
    case Idle => if jobs[j].pack.None? then q.DepsWait? else q.PackQueued? || q.Packing?
    case PackGranted => q.Packing?
    case Packing => jobs[j].pack.Some? && if TakesLock(jobs, j) then q.LockQueued? else q.PackDone?
    case LockQueued(_) => q.LockHeld? && TakesLock(jobs, j)
    case LockHeld => q.PackDone? && TakesLock(jobs, j)
    case PackDone => if PackOk(jobs[j]) then q.DepsWait? else q.Finishing?
    case DepsWait => q.Discarding? || q.PublishQueued? || q.Publishing?
    case Discarding => q.Finishing? && PackOk(jobs[j]) && Blocked(jobs, j)
    case PublishGranted => q.Publishing?
    case Publishing => q.Finishing? && PackOk(jobs[j]) && !Blocked(jobs, j)
    case Finishing(ok) => q == Settled(ok)
    case _ => false
  }

  lemma {:induction false} PackingLeads(w: World, s: Sys, j: nat)
    requires Inv(w, s) && CanStep(w, s, j) && BeforePacked(s.phase[j]) && !s.phase[j].PackDone?
    ensures j < |w.jobs| == |s.phase| == |Step(w, s, j).phase| && Leads(w.jobs, j, s.phase[j], Step(w, s, j).phase[j])
  {
    LockTaken(w, s, j);
    assert OutcomeOk(w, s, j, s.phase[j]);
    assert |s.phase| == |w.jobs|;
    hide LockInv, OutcomeInv, WrittenInv, SlotInv, Blocked, LockArrivals, PrereqsPublished, AllSettled;
  }

  lemma {:induction false} PublishingLeads(w: World, s: Sys, j: nat)
    requires Inv(w, s) && CanStep(w, s, j) && (!BeforePacked(s.phase[j]) || s.phase[j].PackDone?)
    ensures j < |w.jobs| == |s.phase| == |Step(w, s, j).phase| && Leads(w.jobs, j, s.phase[j], Step(w, s, j).phase[j])
  {
    assert OutcomeOk(w, s, j, s.phase[j]);
    if s.phase[j].Publishing? {
      NotBlocked(w, s, j);
      LeaveMover(w, s, j, Finishing(w.jobs[j].publishes));
    } else if s.phase[j].PackDone? {
      LeaveMover(w, s, j, if PackOk(w.jobs[j]) then DepsWait else Finishing(false));
    }
    assert |s.phase| == |w.jobs|;
    hide LockInv, OutcomeInv, WrittenInv, SlotInv, Blocked, PrereqsPublished, AllSettled, AnyFailed;
  }

  /** Every step of a task is one of its life. */
  lemma {:induction false} StepLeads(w: World, s: Sys, j: nat)
    requires Inv(w, s) && CanStep(w, s, j)
    ensures j < |w.jobs| == |s.phase| == |Step(w, s, j).phase| && Leads(w.jobs, j, s.phase[j], Step(w, s, j).phase[j])
  {
    assert j < |s.phase|;
    hide *;
    if BeforePacked(s.phase[j]) && !s.phase[j].PackDone? {
      PackingLeads(w, s, j);
    } else {
      PublishingLeads(w, s, j);
    }
  }

  lemma {:induction false} LeadsOn(jobs: seq<PublishJob>, j: nat, p: Phase, q: Phase)
    requires j < |jobs| && Leads(jobs, j, p, q)
    ensures StagesAt(jobs, j, q) == StagesAt(jobs, j, p) + StageOf(q)
  {
    hide Blocked;
  }

  lemma {:induction false} NotBlocked(w: World, s: Sys, j: nat)
    requires OutcomeInv(w, s) && j < |s.phase| && PrereqsPublished(w, s, j)
    ensures !Blocked(w.jobs, j)
  {
    forall d: nat | Prereq(w.jobs, j, d) ensures !Doomed(w.jobs, d) {
      assert s.phase[d] == Settled(true);
      assert OutcomeOk(w, s, d, s.phase[d]);
    }
  }

  /** What a job has been through is determined by the phase it is in: it has skipped no stage and taken no other. */
  lemma {:induction false} Stages(w: World, schedule: seq<nat>, j: nat)
    requires WellFormed(w) && Run(w, schedule).Some? && j < |w.jobs|
    ensures var s := Run(w, schedule).value;
            j < |s.phase| && Visited(w, schedule, j) == StagesAt(w.jobs, j, s.phase[j])
  {
    if schedule != [] {
      var prefix, i := schedule[..|schedule| - 1], schedule[|schedule| - 1];
      var s := Run(w, prefix).value;
      InvRun(w, prefix);
      Stages(w, prefix, j);
      if i == j {
        StepLeads(w, s, j);
        LeadsOn(w.jobs, j, s.phase[j], Step(w, s, j).phase[j]);
      } else {
        StagesOfOther(w, s, i, j);
      }
      assert StageOf(s.phase[j]) <= Visited(w, prefix, j);
      hide StagesAt, StageOf, Inv, Step, CanStep;
    }
  }

  lemma {:induction false} VisitedAt(w: World, schedule: seq<nat>, j: nat, stage: Stage) returns (n: nat)
    requires Run(w, schedule).Some? && stage in Visited(w, schedule, j)
    ensures n <= |schedule| && Run(w, schedule[..n]).Some?
    ensures var phase := Run(w, schedule[..n]).value.phase; j < |phase| && stage in StageOf(phase[j])
  {
    var phase := Run(w, schedule).value.phase;
    if j < |phase| && stage in StageOf(phase[j]) {
      n := |schedule|;
      assert schedule[..n] == schedule;
    } else {
      n := VisitedAt(w, schedule[..|schedule| - 1], j, stage);
      assert schedule[..|schedule| - 1][..n] == schedule[..n];
    }
  }

  /**
   In every reachable state a job that is past packing has asked for its pack lock, unless it has none or failed before; past
   the lock it has released it, and at some point of the run it held it.
   */
  lemma {:induction false} PackLockIsTaken(w: World, schedule: seq<nat>, j: nat) returns (n: nat)
    requires WellFormed(w) && Run(w, schedule).Some? && j < |w.jobs|
    requires TakesLock(w.jobs, j) && j < |Run(w, schedule).value.phase|
    requires !Early(Run(w, schedule).value.phase[j]) && !InLock(Run(w, schedule).value.phase[j])
    ensures var s := Run(w, schedule).value; j in s.lockArrivals && j in s.released
    ensures n <= |schedule| && Run(w, schedule[..n]).Some?
    ensures var phase := Run(w, schedule[..n]).value.phase; j < |phase| && phase[j] == LockHeld
  {
    InvRun(w, schedule);
    LockTaken(w, Run(w, schedule).value, j);
    Stages(w, schedule, j);
    LockStageIn(w.jobs, j, Run(w, schedule).value.phase[j]);
    hide *;
    n := VisitedAt(w, schedule, j, LockStage);
    OnlyLockHeld(Run(w, schedule[..n]).value.phase[j]);
  }

  lemma {:induction false} LockStageIn(jobs: seq<PublishJob>, j: nat, p: Phase)
    requires TakesLock(jobs, j) && !Early(p) && !InLock(p)
    ensures LockStage in StagesAt(jobs, j, p)
  {
  }

  lemma {:induction false} OnlyLockHeld(p: Phase)
    requires LockStage in StageOf(p)
    ensures p == LockHeld
  {
  }

  /**
   In a complete run every job packed if it has a pack phase, held its lock if it has one to take, waited if it packed, and
   then published, or was discarded if a prerequisite is doomed.
   */
  lemma {:induction false} CompleteRunVisits(w: World, schedule: seq<nat>, j: nat)
    requires WellFormed(w) && Run(w, schedule).Some? && Done(w, Run(w, schedule).value) && j < |w.jobs|
    ensures Visited(w, schedule, j) == AllStages(w.jobs, j)
  {
    Stages(w, schedule, j);
    assert Run(w, schedule).value.phase[j].Settled?;
  }

  /**
   In a complete run a job publishes exactly if its pack phase, if any, succeeded and no prerequisite is doomed; doomed are
   the jobs whose pack phase or publication fails, and those with a doomed prerequisite.
   */
  lemma {:induction false} WhoPublishes(w: World, schedule: seq<nat>, j: nat)
    requires WellFormed(w) && Run(w, schedule).Some? && Done(w, Run(w, schedule).value) && j < |w.jobs|
    ensures var job := w.jobs[j];
            var packFails, blocked := job.pack.Some? && job.pack.value.outcome != Packs, exists d: nat :: Prereq(w.jobs, j, d) && Doomed(w.jobs, d);
            && (PublishStage in Visited(w, schedule, j) <==> !packFails && !blocked)
            && (Doomed(w.jobs, j) <==> packFails || !job.publishes || blocked)
  {
    CompleteRunVisits(w, schedule, j);
    DoomedUnfolds(w.jobs, j);
    hide Doomed, Visited, Run, Done;
  }
}
