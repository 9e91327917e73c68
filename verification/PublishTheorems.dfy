/** Whole runs of the publish runner: safety, progress, termination, and a result that no schedule can change. */
module PublishTheorems {
  import opened Prelude
  import opened PublishModel
  import opened PublishInvariants
  import opened DependencyGraph

  // ---------------------------------------------------------------- safety

  /**
   At most `limit` pack and publish sections run, and slots are handed over in order of arrival. Whoever waits for
   or holds a pack lock holds a slot; whoever waits for prerequisites holds none.
   */
  lemma {:induction false} SlotSafety(w: World, schedule: seq<nat>)
    requires WellFormed(w) && Run(w, schedule).Some?
    ensures var s := Run(w, schedule).value;
            && |Holders(s.phase)| == s.active <= w.limit
            && (s.waiting != [] ==> s.active == w.limit)
            && s.handed <= s.arrivals
            && (forall j: nat :: j < |s.phase| && InLock(s.phase[j]) ==> j in Holders(s.phase))
            && (forall j: nat :: j < |s.phase| && s.phase[j].DepsWait? ==> j !in Holders(s.phase))
  {
    InvRun(w, schedule);
  }

  /** A task that enters the semaphore gets a slot at once only when nobody queues: there is no barging. */
  lemma {:induction false} NoBarging(w: World, schedule: seq<nat>, j: nat)
    requires WellFormed(w) && Run(w, schedule).Some? && CanStep(w, Run(w, schedule).value, j)
    ensures var s := Run(w, schedule).value;
            !HoldsSlot(s.phase[j]) && HoldsSlot(Step(w, s, j).phase[j]) ==> s.waiting == [] && s.active < w.limit
  {
    InvRun(w, schedule);
  }

  /** Two tasks never pack under the same key, and tasks with one key enter in the order in which they asked. */
  lemma {:induction false} PackLockSafety(w: World, schedule: seq<nat>, a: int, b: int)
    requires WellFormed(w) && Run(w, schedule).Some?
    requires var s := Run(w, schedule).value;
             0 <= a < b < |s.lockArrivals| && SameKey(w.jobs, s.lockArrivals[a], s.lockArrivals[b])
    ensures var s := Run(w, schedule).value;
            var first, second := s.lockArrivals[a], s.lockArrivals[b];
            && first < |s.phase| && second < |s.phase|
            && !(s.phase[first].LockHeld? && s.phase[second].LockHeld?)
            && (InLock(s.phase[first]) ==> s.phase[second].LockQueued?)
  {
    InvRun(w, schedule);
    var s := Run(w, schedule).value;
    assert ArrivedAt(w, s, s.lockArrivals[a]) && ArrivedAt(w, s, s.lockArrivals[b]);
  }

  /** Everybody in a critical section is among those who asked, so the previous lemma speaks of every pair. */
  lemma {:induction false} PackLockExclusion(w: World, schedule: seq<nat>, i: nat, j: nat)
    requires WellFormed(w) && Run(w, schedule).Some? && i < |w.jobs| && j < |w.jobs| && i != j
    requires LockKey(w.jobs[i]) == LockKey(w.jobs[j])
    ensures var s := Run(w, schedule).value;
            i < |s.phase| && j < |s.phase| && !(s.phase[i].LockHeld? && s.phase[j].LockHeld?)
  {
    InvRun(w, schedule);
    var s := Run(w, schedule).value;
    if s.phase[i].LockHeld? && s.phase[j].LockHeld? {
      var a :| 0 <= a < |s.lockArrivals| && s.lockArrivals[a] == i;
      var b :| 0 <= b < |s.lockArrivals| && s.lockArrivals[b] == j;
      assert ArrivedAt(w, s, s.lockArrivals[a]) && ArrivedAt(w, s, s.lockArrivals[b]);
      if a < b {
        PackLockSafety(w, schedule, a, b);
      } else {
        PackLockSafety(w, schedule, b, a);
      }
    }
  }

  /**
   A job is in its publish phase only after packing and after every known prerequisite published; so a job with a
   doomed prerequisite never publishes.
   */
  lemma {:induction false} PublishSafety(w: World, schedule: seq<nat>, j: nat)
    requires WellFormed(w) && Run(w, schedule).Some? && j < |w.jobs|
    ensures var s := Run(w, schedule).value;
            && |s.phase| == |w.jobs|
            && (PublishPhase(s.phase[j]) ==> PackOk(w.jobs[j]) && PrereqsPublished(w, s, j))
            && (PublishPhase(s.phase[j]) ==> forall d: nat :: Prereq(w.jobs, j, d) ==> !Doomed(w.jobs, d))
  {
    InvRun(w, schedule);
    var s := Run(w, schedule).value;
    if PublishPhase(s.phase[j]) {
      forall d: nat | Prereq(w.jobs, j, d) ensures !Doomed(w.jobs, d) {
        assert s.phase[d] == Settled(true);
      }
    }
  }

  // ---------------------------------------------------------------- termination

  /** Steps left to a task, counting the ones that hand it a slot. */
  function Weight(p: Phase): nat {
    match p
    case Idle => 12
    case PackQueued => 11
    case PackGranted => 10
    case Packing => 9
    case LockQueued(_) => 8
    case LockHeld => 7
    case PackDone => 6
    case DepsWait => 5
    case PublishQueued => 4
    case PublishGranted => 3
    case Publishing => 2
    case Discarding => 2
    case Finishing(_) => 1
    case Settled(_) => 0
  }

  function Measure(phase: seq<Phase>): nat {
    if phase == [] then 0 else Weight(phase[0]) + Measure(phase[1..])
  }

  lemma {:induction false} MeasureFalls(p: seq<Phase>, q: seq<Phase>, j: nat)
    requires |p| == |q| && j < |p| && Weight(q[j]) < Weight(p[j])
    requires forall i :: 0 <= i < |p| ==> Weight(q[i]) <= Weight(p[i])
    ensures Measure(q) < Measure(p)
    decreases j
  {
    if j > 0 {
      MeasureFalls(p[1..], q[1..], j - 1);
    } else {
      MeasureNoMore(p[1..], q[1..]);
    }
  }

  lemma {:induction false} MeasureNoMore(p: seq<Phase>, q: seq<Phase>)
    requires |p| == |q| && forall i :: 0 <= i < |p| ==> Weight(q[i]) <= Weight(p[i])
    ensures Measure(q) <= Measure(p)
  {
    if p != [] {
      MeasureNoMore(p[1..], q[1..]);
    }
  }

  lemma {:induction false} MeasureBound(p: seq<Phase>)
    ensures Measure(p) <= 12 * |p|
  {
    if p != [] {
      MeasureBound(p[1..]);
    }
  }

  /** Every step lowers the weight of the task that moves and raises no other's: no phase is entered twice. */
  lemma {:induction false} StepDecreases(w: World, s: Sys, j: nat)
    requires WellFormed(w) && Inv(w, s) && CanStep(w, s, j)
    ensures var t := Step(w, s, j);
            && |t.phase| == |s.phase|
            && Weight(t.phase[j]) < Weight(s.phase[j])
            && (forall i :: 0 <= i < |s.phase| ==> Weight(t.phase[i]) <= Weight(s.phase[i]))
            && Measure(t.phase) < Measure(s.phase)
  {
    OthersWeight(w, s, j);
    MoverWeight(w, s, j);
    hide *;
    MeasureFalls(s.phase, Step(w, s, j).phase, j);
  }

  lemma {:induction false} OthersWeight(w: World, s: Sys, j: nat)
    requires SlotInv(w, s) && CanStep(w, s, j)
    ensures var t := Step(w, s, j);
            j < |s.phase| == |t.phase| && forall i :: 0 <= i < |s.phase| && i != j ==> Weight(t.phase[i]) <= Weight(s.phase[i])
  {
    StepPhases(w, s, j);
    assert j < |s.phase|;
    hide Step, CanStep, SlotInv;
  }

  lemma {:induction false} MoverWeight(w: World, s: Sys, j: nat)
    requires SlotInv(w, s) && CanStep(w, s, j)
    ensures Weight(Step(w, s, j).phase[j]) < Weight(s.phase[j])
  {
    if s.phase[j].PackDone? || s.phase[j].Publishing? {
      assert !Queued(s.phase[j]);
    }
  }

  /** A run of n jobs takes at most 12 * n steps, whatever the schedule. */
  lemma {:induction false} RunsAreShort(w: World, schedule: seq<nat>)
    requires WellFormed(w) && Run(w, schedule).Some?
    ensures |schedule| + Measure(Run(w, schedule).value.phase) <= 12 * |w.jobs|
  {
    if schedule == [] {
      MeasureBound(Init(w).phase);
    } else {
      var prefix := schedule[..|schedule| - 1];
      InvRun(w, prefix);
      RunsAreShort(w, prefix);
      StepDecreases(w, Run(w, prefix).value, schedule[|schedule| - 1]);
    }
  }

  // ---------------------------------------------------------------- progress

  /** `byName` of the source: later jobs replace earlier ones of the same name. */
  function ByName(jobs: seq<PublishJob>): Graph {
    if jobs == [] then map[]
    else ByName(jobs[..|jobs| - 1])[jobs[|jobs| - 1].name := jobs[|jobs| - 1].dependsOn]
  }

  lemma {:induction false} ByNameFinds(jobs: seq<PublishJob>, i: nat)
    requires DistinctNames(jobs) && i < |jobs|
    ensures jobs[i].name in ByName(jobs) && ByName(jobs)[jobs[i].name] == jobs[i].dependsOn
  {
    if i < |jobs| - 1 {
      ByNameFinds(jobs[..|jobs| - 1], i);
    }
  }

  /** The prerequisites a job waits for are the dependencies that the cycle check follows, other than the job itself. */
  lemma {:induction false} PrereqIsEdge(jobs: seq<PublishJob>, j: nat, d: nat)
    requires DistinctNames(jobs) && j < |jobs| && d < |jobs|
    ensures Prereq(jobs, j, d) <==> j != d && Edge(ByName(jobs), jobs[j].name, jobs[d].name)
  {
    ByNameFinds(jobs, j);
    ByNameFinds(jobs, d);
  }

  /** Among the tasks waiting for a pack lock, the earliest can go on, or the task it awaits can. */
  lemma {:induction false} LockProgress(w: World, s: Sys, j: nat)
    requires LockInv(w, s) && j < |s.phase| && s.phase[j].LockQueued?
    ensures exists i: nat :: CanStep(w, s, i)
  {
    var a :| 0 <= a < |s.lockArrivals| && s.lockArrivals[a] == j;
    LockProgressAt(w, s, a);
  }

  lemma {:induction false} LockProgressAt(w: World, s: Sys, a: int)
    requires LockInv(w, s) && 0 <= a < |s.lockArrivals| && s.lockArrivals[a] !in s.released
    ensures exists i: nat :: CanStep(w, s, i)
    decreases a
  {
    var j := s.lockArrivals[a];
    assert ArrivedAt(w, s, j);
    if s.phase[j].LockHeld? || s.phase[j].prev.None? || s.phase[j].prev.value in s.released {
      assert CanStep(w, s, j);
    } else {
      assert AwaitsPrevious(w, s, a, j);
      var b :| 0 <= b < a && s.lockArrivals[b] == s.phase[j].prev.value;
      LockProgressAt(w, s, b);
    }
  }

  /** Whoever holds a slot can go on, or somebody ahead of it in the pack lock can. */
  lemma {:induction false} HolderProgress(w: World, s: Sys, j: nat)
    requires SlotInv(w, s) && LockInv(w, s) && j < |s.phase| && HoldsSlot(s.phase[j])
    ensures exists i: nat :: CanStep(w, s, i)
  {
    if s.phase[j].LockQueued? {
      LockProgress(w, s, j);
    } else {
      assert CanStep(w, s, j);
    }
  }

  /** Descending through unsettled prerequisites reaches a task that can move. */
  lemma {:induction false} PrereqProgress(w: World, s: Sys, rank: map<string, nat>, j: nat)
    requires WellFormed(w) && Inv(w, s) && Ranks(ByName(w.jobs), ByName(w.jobs).Keys, rank)
    requires j < |s.phase| && !s.phase[j].Settled? && w.jobs[j].name in rank
    ensures exists i: nat :: CanStep(w, s, i)
    decreases rank[w.jobs[j].name]
  {
    if Queued(s.phase[j]) {
      assert s.waiting != [] && |Holders(s.phase)| >= 1;
      var h :| h in Holders(s.phase);
      HolderProgress(w, s, h);
    } else if s.phase[j].LockQueued? {
      LockProgress(w, s, j);
    } else if s.phase[j].DepsWait? && !AllSettled(w.jobs, s.phase, j) {
      var d :| 0 <= d < |w.jobs| && Prereq(w.jobs, j, d) && !s.phase[d].Settled?;
      PrereqIsEdge(w.jobs, j, d);
      PrereqProgress(w, s, rank, d);
    } else {
      assert CanStep(w, s, j);
    }
  }

  /** Deadlock freedom: while some job is unsettled, some task can move. */
  lemma {:induction false} Progress(w: World, schedule: seq<nat>)
    requires WellFormed(w) && Acyclic(ByName(w.jobs)) && Run(w, schedule).Some?
    ensures var s := Run(w, schedule).value;
            Done(w, s) || exists i: nat :: CanStep(w, s, i)
  {
    InvRun(w, schedule);
    ProgressFromInv(w, Run(w, schedule).value);
  }

  lemma {:induction false} ProgressFromInv(w: World, s: Sys)
    requires WellFormed(w) && Acyclic(ByName(w.jobs)) && Inv(w, s)
    ensures Done(w, s) || exists i: nat :: CanStep(w, s, i)
  {
    if !Done(w, s) {
      var j :| 0 <= j < |s.phase| && !s.phase[j].Settled?;
      var rank := AcyclicHasRank(ByName(w.jobs), ByName(w.jobs).Keys);
      ByNameFinds(w.jobs, j);
      PrereqProgress(w, s, rank, j);
    }
  }

  // ---------------------------------------------------------------- the result

  lemma {:induction false} FailedAreDoomed(all: seq<PublishJob>, n: nat, phase: seq<Phase>)
    requires n <= |all| && |phase| == n
    requires forall j: nat :: j < n ==> (phase[j] == Settled(false) <==> Doomed(all, j))
    ensures Failed(all[..n], phase) == Names(all[..n], (j: nat) => Doomed(all, j))
  {
    if n > 0 {
      FailedAreDoomed(all, n - 1, phase[..n - 1]);
      assert all[..n][..n - 1] == all[..n - 1];
    }
  }

  /** The jobs that `bad` selects, in input order: `order` has exactly these, and the names are theirs. */
  lemma {:induction false} NamesInOrder(jobs: seq<PublishJob>, n: nat, bad: nat -> bool) returns (order: seq<nat>)
    requires n <= |jobs|
    ensures |Names(jobs[..n], bad)| == |order|
    ensures forall i :: 0 <= i < |order| ==> order[i] < n && bad(order[i]) && Names(jobs[..n], bad)[i] == jobs[order[i]].name
    ensures forall i, k :: 0 <= i < k < |order| ==> order[i] < order[k]
    ensures forall j: nat :: j < n && bad(j) ==> j in order
  {
    order := [];
    if n > 0 {
      order := NamesInOrder(jobs, n - 1, bad);
      assert jobs[..n][..n - 1] == jobs[..n - 1];
      if bad(n - 1) {
        order := order + [n - 1];
      }
    }
  }

  /** What is returned: the names of exactly the jobs that fail themselves or depend on one that does, in input order. */
  lemma {:induction false} ExpectedAreDoomed(jobs: seq<PublishJob>) returns (order: seq<nat>)
    ensures |Expected(jobs)| == |order|
    ensures forall i :: 0 <= i < |order| ==> order[i] < |jobs| && Expected(jobs)[i] == jobs[order[i]].name
    ensures forall i, k :: 0 <= i < k < |order| ==> order[i] < order[k]
    ensures forall j: nat :: j in order <==> j < |jobs| && Doomed(jobs, j)
  {
    hide Doomed;
    order := NamesInOrder(jobs, |jobs|, (j: nat) => Doomed(jobs, j));
    assert jobs[..|jobs|] == jobs;
  }

  lemma {:induction false} ResultFromInv(w: World, s: Sys)
    requires Inv(w, s) && Done(w, s)
    ensures Failed(w.jobs, s.phase) == Expected(w.jobs)
  {
    FailedAreDoomed(w.jobs, |w.jobs|, s.phase);
    assert w.jobs[..|w.jobs|] == w.jobs;
  }

  /**
   Every complete run returns the jobs that fail by themselves and all jobs that transitively depend on one, in
   input order, and has written exactly one block per job.
   */
  lemma {:induction false} CompleteRunReturns(w: World, schedule: seq<nat>)
    requires WellFormed(w) && Run(w, schedule).Some? && Done(w, Run(w, schedule).value)
    ensures var s := Run(w, schedule).value;
            && Failed(w.jobs, s.phase) == Expected(w.jobs)
            && Distinct(s.written) && forall j: nat :: j in s.written <==> j < |w.jobs|
  {
    InvRun(w, schedule);
    var s := Run(w, schedule).value;
    ResultFromInv(w, s);
  }

  /** No schedule and no concurrency limit changes the result. */
  lemma {:induction false} ScheduleIndependence(w: World, schedule: seq<nat>, v: World, other: seq<nat>)
    requires WellFormed(w) && WellFormed(v) && w.jobs == v.jobs
    requires Run(w, schedule).Some? && Done(w, Run(w, schedule).value)
    requires Run(v, other).Some? && Done(v, Run(v, other).value)
    ensures Failed(w.jobs, Run(w, schedule).value.phase) == Failed(v.jobs, Run(v, other).value.phase)
  {
    CompleteRunReturns(w, schedule);
    CompleteRunReturns(v, other);
  }
}
