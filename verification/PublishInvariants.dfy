/** What every step of the publish runner keeps. */
module PublishInvariants {
  import opened Prelude
  import opened PublishModel

  // ---------------------------------------------------------------- slots

  ghost function Holders(phase: seq<Phase>): set<nat> {
    set j: nat | j < |phase| && HoldsSlot(phase[j])
  }

  /**
   `active` counts the tasks inside pack and publish sections and never exceeds the limit; somebody queues only
   while every slot is taken; the queue holds exactly the queued tasks, once each, in order of arrival, and slots
   are handed over in that order.
   */
  ghost predicate SlotInv(w: World, s: Sys) {
    && |s.phase| == |w.jobs|
    && s.active == |Holders(s.phase)|
    && s.active <= w.limit
    && (s.waiting != [] ==> s.active == w.limit)
    && Distinct(s.waiting)
    && (forall i :: 0 <= i < |s.waiting| ==> s.waiting[i] < |s.phase| && Queued(s.phase[s.waiting[i]]))
    && (forall j: nat :: j < |s.phase| && Queued(s.phase[j]) ==> j in s.waiting)
    && s.arrivals == s.handed + s.waiting
  }

  lemma {:induction false} HoldersAfter(phase: seq<Phase>, j: nat, p: Phase)
    requires j < |phase|
    ensures |Holders(phase[j := p])| ==
            |Holders(phase)| + (if HoldsSlot(p) then 1 else 0) - (if HoldsSlot(phase[j]) then 1 else 0)
  {
    OtherHolders(phase, j, phase[j]);
    OtherHolders(phase, j, p);
    assert phase[j := phase[j]] == phase;
  }

  /** All but one of the tasks that hold a slot. */
  ghost function HoldersBut(phase: seq<Phase>, j: nat): set<nat> {
    set i: nat | i < |phase| && i != j && HoldsSlot(phase[i])
  }

  lemma {:induction false} OtherHolders(phase: seq<Phase>, j: nat, p: Phase)
    requires j < |phase|
    ensures |Holders(phase[j := p])| == |HoldersBut(phase, j)| + if HoldsSlot(p) then 1 else 0
  {
    var now := phase[j := p];
    assert Holders(now) == if HoldsSlot(p) then HoldersBut(phase, j) + {j} else HoldersBut(phase, j);
  }

  /** A task moves on without entering or leaving the semaphore. */
  lemma {:induction false} SlotInvMove(w: World, s: Sys, t: Sys, j: nat)
    requires SlotInv(w, s) && j < |s.phase|
    requires |t.phase| == |s.phase| && t.phase == s.phase[j := t.phase[j]]
    requires HoldsSlot(t.phase[j]) == HoldsSlot(s.phase[j]) && !Queued(s.phase[j]) && !Queued(t.phase[j])
    requires t.active == s.active && t.waiting == s.waiting && t.arrivals == s.arrivals && t.handed == s.handed
    ensures SlotInv(w, t)
  {
    HoldersAfter(s.phase, j, t.phase[j]);
    forall i | 0 <= i < |t.waiting| ensures t.waiting[i] < |t.phase| && Queued(t.phase[t.waiting[i]]) {
      assert t.waiting[i] != j;
    }
  }

  lemma {:induction false} SlotInvEnter(w: World, s: Sys, j: nat, run: Phase, wait: Phase)
    requires SlotInv(w, s) && j < |s.phase|
    requires !HoldsSlot(s.phase[j]) && !Queued(s.phase[j])
    requires HoldsSlot(run) && !Queued(run) && !HoldsSlot(wait) && Queued(wait)
    ensures SlotInv(w, Enter(w, s, j, run, wait))
  {
    var t := Enter(w, s, j, run, wait);
    HoldersAfter(s.phase, j, t.phase[j]);
    assert j !in s.waiting;
    if s.active >= w.limit {
      assert t.waiting == s.waiting + [j];
      forall i: nat | i < |t.phase| && Queued(t.phase[i]) ensures i in t.waiting {
        if i != j {
          assert i in s.waiting;
        } else {
          assert t.waiting[|s.waiting|] == j;
        }
      }
    }
  }

  lemma {:induction false} SlotInvLeave(w: World, s: Sys, j: nat, next: Phase)
    requires SlotInv(w, s) && j < |s.phase|
    requires HoldsSlot(s.phase[j]) && !HoldsSlot(next) && !Queued(next)
    ensures SlotInv(w, Leave(s, j, next))
  {
    HoldersAfter(s.phase, j, next);
    if s.waiting == [] {
      assert SlotInv(w, Leave(s, j, next));
    } else {
      SlotInvHandOver(w, s, j, next);
    }
  }

  /** The slot of a leaving task goes to the head of the queue; the number of holders does not change. */
  lemma {:induction false} SlotInvHandOver(w: World, s: Sys, j: nat, next: Phase)
    requires SlotInv(w, s) && j < |s.phase| && s.waiting != []
    requires HoldsSlot(s.phase[j]) && !HoldsSlot(next) && !Queued(next)
    ensures SlotInv(w, Leave(s, j, next))
  {
    var head, t := s.waiting[0], Leave(s, j, next);
    assert head != j && head < |s.phase| && Queued(s.phase[head]);
    assert t.phase == s.phase[j := next][head := Granted(s.phase[head])];
    HoldersAfterHandOver(s.phase, j, next, head);
    assert t.arrivals == t.handed + t.waiting by {
      assert s.waiting == [head] + t.waiting;
    }
    QueueAfterHandOver(s, t.phase, j, head);
  }

  lemma {:induction false} HoldersAfterHandOver(phase: seq<Phase>, j: nat, next: Phase, head: nat)
    requires j < |phase| && head < |phase| && head != j
    requires HoldsSlot(phase[j]) && !HoldsSlot(next) && Queued(phase[head])
    ensures |Holders(phase[j := next][head := Granted(phase[head])])| == |Holders(phase)|
  {
    HoldersAfter(phase, j, next);
    HoldersAfter(phase[j := next], head, Granted(phase[head]));
  }

  /** The rest of the queue is untouched by the hand-over. */
  lemma {:induction false} QueueAfterHandOver(s: Sys, phase: seq<Phase>, j: nat, head: nat)
    requires s.waiting != [] && s.waiting[0] == head && Distinct(s.waiting)
    requires forall i :: 0 <= i < |s.waiting| ==> s.waiting[i] < |s.phase| && Queued(s.phase[s.waiting[i]])
    requires forall i: nat :: i < |s.phase| && Queued(s.phase[i]) ==> i in s.waiting
    requires |phase| == |s.phase| && j < |phase| && !Queued(s.phase[j]) && !Queued(phase[j]) && !Queued(phase[head])
    requires forall i :: 0 <= i < |phase| && i != j && i != head ==> phase[i] == s.phase[i]
    ensures Distinct(s.waiting[1..])
    ensures forall i :: 0 <= i < |s.waiting[1..]| ==> s.waiting[1..][i] < |phase| && Queued(phase[s.waiting[1..][i]])
    ensures forall i: nat :: i < |phase| && Queued(phase[i]) ==> i in s.waiting[1..]
  {
    var rest := s.waiting[1..];
    assert s.waiting == [head] + rest;
    forall i | 0 <= i < |rest| ensures rest[i] < |phase| && Queued(phase[rest[i]]) {
      assert rest[i] == s.waiting[i + 1];
    }
    forall i: nat | i < |phase| && Queued(phase[i]) ensures i in rest {
      assert i in s.waiting;
    }
  }

  lemma {:induction false} SlotInvStep(w: World, s: Sys, j: nat)
    requires WellFormed(w) && SlotInv(w, s) && CanStep(w, s, j)
    ensures SlotInv(w, Step(w, s, j))
  {
    var job, p := w.jobs[j], s.phase[j];
    if p.Idle? && job.pack.Some? {
      SlotInvEnter(w, s, j, Packing, PackQueued);
    } else if p.DepsWait? && !AnyFailed(w.jobs, s.phase, j) {
      SlotInvEnter(w, s, j, Publishing, PublishQueued);
    } else if p.PackDone? {
      SlotInvLeave(w, s, j, if PackOk(job) then DepsWait else Finishing(false));
    } else if p.Publishing? {
      SlotInvLeave(w, s, j, Finishing(job.publishes));
    } else {
      SlotInvMove(w, s, Step(w, s, j), j);
    }
  }

  /** What one step does to the phases: the task moves, and at most one queued task is granted the slot it waits for. */
  lemma {:induction false} StepPhases(w: World, s: Sys, j: nat)
    requires SlotInv(w, s) && CanStep(w, s, j)
    ensures var t := Step(w, s, j);
            |t.phase| == |s.phase|
            && forall i: nat :: i < |s.phase| && i != j && t.phase[i] != s.phase[i] ==>
                 Queued(s.phase[i]) && t.phase[i] == Granted(s.phase[i])
  {
    if s.phase[j].PackDone? {
    } else if s.phase[j].Publishing? {
    }
  }

  /** A leaving task is not the one that is granted its slot. */
  lemma {:induction false} LeaveMover(w: World, s: Sys, j: nat, next: Phase)
    requires SlotInv(w, s) && j < |s.phase| && !Queued(s.phase[j])
    ensures |Leave(s, j, next).phase| == |s.phase| && Leave(s, j, next).phase[j] == next
  {
    assert s.waiting != [] ==> s.waiting[0] != j;
  }

  /** Only a finishing task settles, and it keeps its outcome. */
  lemma {:induction false} SettledAfterStep(w: World, s: Sys, j: nat)
    requires SlotInv(w, s) && CanStep(w, s, j)
    ensures var t := Step(w, s, j);
            |t.phase| == |s.phase|
            && (forall i :: 0 <= i < |s.phase| ==>
                  (t.phase[i].Settled? <==> s.phase[i].Settled? || (i == j && s.phase[i].Finishing?)))
            && (forall i :: 0 <= i < |s.phase| && t.phase[i].Settled? ==> t.phase[i].ok == s.phase[i].ok)
            && t.written == s.written + if s.phase[j].Finishing? then [j] else []
  {
    StepPhases(w, s, j);
    var p := s.phase[j];
    if p.PackDone? {
      LeaveMover(w, s, j, if PackOk(w.jobs[j]) then DepsWait else Finishing(false));
    } else if p.Publishing? {
      LeaveMover(w, s, j, Finishing(w.jobs[j].publishes));
    }
  }

  // ---------------------------------------------------------------- pack locks

  /** Phases in which a task has not yet asked for its pack lock. */
  predicate Early(p: Phase) {
    p.Idle? || p.PackQueued? || p.PackGranted? || p.Packing?
  }

  predicate HasLock(jobs: seq<PublishJob>, j: nat) {
    j < |jobs| && LockKey(jobs[j]).Some?
  }

  /** The job asks for its pack lock, unless it fails before. */
  predicate TakesLock(jobs: seq<PublishJob>, j: nat) {
    HasLock(jobs, j) && !jobs[j].pack.value.outcome.FailsBeforeLock?
  }

  predicate SameKey(jobs: seq<PublishJob>, i: nat, j: nat) {
    HasLock(jobs, i) && HasLock(jobs, j) && LockKey(jobs[i]) == LockKey(jobs[j])
  }

  /** No task with this key asked for the lock at the positions from `lo` up to `hi`. */
  predicate NoneBetween(jobs: seq<PublishJob>, arrivals: seq<nat>, lo: int, hi: int, key: string) {
    forall b :: 0 <= b < |arrivals| && lo <= b < hi ==> arrivals[b] < |jobs| && LockKey(jobs[arrivals[b]]) != Some(key)
  }

  /** `prev` is the task that asked for the key just before position `at`, if any did. */
  ghost predicate IsPrevious(jobs: seq<PublishJob>, arrivals: seq<nat>, at: int, key: string, prev: Option<nat>) {
    match prev
    case None => NoneBetween(jobs, arrivals, 0, at, key)
    case Some(p) =>
      exists a :: 0 <= a < at && a < |arrivals| && arrivals[a] == p && p < |jobs| && LockKey(jobs[p]) == Some(key)
                  && NoneBetween(jobs, arrivals, a + 1, at, key)
  }

  /** The tasks that asked for a lock, and which of them have released it: all that have a lock to take and are past packing. */
  ghost predicate LockArrivals(w: World, s: Sys) {
    && |s.phase| == |w.jobs|
    && Distinct(s.lockArrivals)
    && (forall a :: 0 <= a < |s.lockArrivals| ==> ArrivedAt(w, s, s.lockArrivals[a]))
    && (forall j: nat :: j < |s.phase| && InLock(s.phase[j]) ==> j in s.lockArrivals)
    && (forall j: nat :: j < |s.phase| && TakesLock(w.jobs, j) && !Early(s.phase[j]) ==> j in s.lockArrivals)
    && (forall j: nat :: j in s.released ==> j in s.lockArrivals)
  }

  predicate InLock(p: Phase) {
    p.LockQueued? || p.LockHeld?
  }

  predicate ArrivedAt(w: World, s: Sys, j: nat) {
    j < |s.phase| && TakesLock(w.jobs, j) && !Early(s.phase[j]) && (j !in s.released <==> InLock(s.phase[j]))
  }

  /** Each key's tail is the last task that asked for it. */
  ghost predicate TailsInv(w: World, s: Sys) {
    forall key :: IsPrevious(w.jobs, s.lockArrivals, |s.lockArrivals|, key, Tail(s, key))
  }

  function Tail(s: Sys, key: string): Option<nat> {
    if key in s.tails then Some(s.tails[key]) else None
  }

  /** A waiting task awaits exactly the task that asked for its key before it. */
  ghost predicate AwaitsInv(w: World, s: Sys)
    requires LockArrivals(w, s)
  {
    forall a :: 0 <= a < |s.lockArrivals| && s.phase[s.lockArrivals[a]].LockQueued? ==>
                  AwaitsPrevious(w, s, a, s.lockArrivals[a])
  }

  ghost predicate AwaitsPrevious(w: World, s: Sys, a: int, j: nat)
    requires j < |s.phase| == |w.jobs| && s.phase[j].LockQueued?
  {
    HasLock(w.jobs, j) && IsPrevious(w.jobs, s.lockArrivals, a, LockKey(w.jobs[j]).value, s.phase[j].prev)
  }

  /** A task is past its wait only when every earlier task with its key has released. */
  ghost predicate ReleaseOrder(w: World, s: Sys)
    requires LockArrivals(w, s)
  {
    forall a, b :: 0 <= a < b < |s.lockArrivals| ==>
                     (SameKey(w.jobs, s.lockArrivals[a], s.lockArrivals[b]) && !s.phase[s.lockArrivals[b]].LockQueued?
                      ==> s.lockArrivals[a] in s.released)
  }

  ghost predicate LockInv(w: World, s: Sys) {
    LockArrivals(w, s) && TailsInv(w, s) && AwaitsInv(w, s) && ReleaseOrder(w, s)
  }

  /** The move does not go back to packing, and does not leave it without the lock that is to be taken. */
  predicate MovesFreely(w: World, p: Phase, q: Phase, i: nat) {
    (Early(q) ==> Early(p)) && (TakesLock(w.jobs, i) && Early(p) ==> Early(q))
  }

  /** A step that touches no lock. */
  lemma {:induction false} LockInvFrame(w: World, s: Sys, t: Sys)
    requires LockInv(w, s) && |t.phase| == |s.phase|
    requires t.tails == s.tails && t.released == s.released && t.lockArrivals == s.lockArrivals
    requires forall i :: 0 <= i < |s.phase| ==>
               || t.phase[i] == s.phase[i]
               || (!InLock(s.phase[i]) && !InLock(t.phase[i]) && MovesFreely(w, s.phase[i], t.phase[i], i))
    ensures LockInv(w, t)
  {
    forall a | 0 <= a < |t.lockArrivals| ensures ArrivedAt(w, t, t.lockArrivals[a]) {
      assert ArrivedAt(w, s, s.lockArrivals[a]);
    }
    assert TailsInv(w, t) by {
      forall key ensures IsPrevious(w.jobs, t.lockArrivals, |t.lockArrivals|, key, Tail(t, key)) {
        assert Tail(t, key) == Tail(s, key);
      }
    }
    forall a | 0 <= a < |t.lockArrivals| && t.phase[t.lockArrivals[a]].LockQueued?
      ensures AwaitsPrevious(w, t, a, t.lockArrivals[a])
    {
      assert AwaitsPrevious(w, s, a, s.lockArrivals[a]);
    }
  }

  /** Earlier positions do not see a later arrival. */
  lemma {:induction false} IsPreviousExtends(jobs: seq<PublishJob>, arrivals: seq<nat>, j: nat, at: int, key: string, prev: Option<nat>)
    requires at <= |arrivals| && IsPrevious(jobs, arrivals, at, key, prev)
    ensures IsPrevious(jobs, arrivals + [j], at, key, prev)
  {
    var longer := arrivals + [j];
    if prev.Some? {
      var a :| 0 <= a < at && a < |arrivals| && arrivals[a] == prev.value
               && LockKey(jobs[prev.value]) == Some(key) && NoneBetween(jobs, arrivals, a + 1, at, key);
      assert longer[a] == prev.value && NoneBetween(jobs, longer, a + 1, at, key);
    }
  }

  /** The newcomer is the tail of its key and changes no other key's tail. */
  lemma {:induction false} TailsKnock(w: World, s: Sys, j: nat, key: string)
    requires LockInv(w, s) && j < |s.phase| && LockKey(w.jobs[j]) == Some(key)
    ensures TailsInv(w, Knock(s, j, key))
  {
    var t, n := Knock(s, j, key), |s.lockArrivals|;
    forall k ensures IsPrevious(w.jobs, t.lockArrivals, n + 1, k, Tail(t, k)) {
      var prev := Tail(s, k);
      assert IsPrevious(w.jobs, s.lockArrivals, n, k, prev);
      if k == key {
        assert t.lockArrivals[n] == j && NoneBetween(w.jobs, t.lockArrivals, n + 1, n + 1, k);
      } else {
        IsPreviousExtends(w.jobs, s.lockArrivals, j, n, k, prev);
        if prev.Some? {
          var a :| 0 <= a < n && t.lockArrivals[a] == prev.value && NoneBetween(w.jobs, t.lockArrivals, a + 1, n, k);
          assert NoneBetween(w.jobs, t.lockArrivals, a + 1, n + 1, k);
        }
      }
    }
  }

  lemma {:induction false} LockInvKnock(w: World, s: Sys, j: nat, key: string)
    requires LockInv(w, s) && j < |s.phase| && s.phase[j].Packing? && LockKey(w.jobs[j]) == Some(key)
    requires TakesLock(w.jobs, j)
    ensures LockInv(w, Knock(s, j, key))
  {
    var t, n := Knock(s, j, key), |s.lockArrivals|;
    TailsKnock(w, s, j, key);
    ArrivalsKnock(w, s, j, key);
    hide IsPrevious, TailsInv;
    forall a | 0 <= a <= n && t.phase[t.lockArrivals[a]].LockQueued?
      ensures AwaitsPrevious(w, t, a, t.lockArrivals[a])
    {
      AwaitsKnock(w, s, j, key, a);
    }
    ReleasesKnock(w, s, j, key);
  }

  lemma {:induction false} ArrivalsKnock(w: World, s: Sys, j: nat, key: string)
    requires LockArrivals(w, s) && j < |s.phase| && s.phase[j].Packing? && LockKey(w.jobs[j]) == Some(key)
    requires TakesLock(w.jobs, j)
    ensures LockArrivals(w, Knock(s, j, key)) && j !in s.lockArrivals
  {
    var t, n := Knock(s, j, key), |s.lockArrivals|;
    assert j !in s.lockArrivals;
    assert t.lockArrivals[n] == j && forall a :: 0 <= a < n ==> t.lockArrivals[a] == s.lockArrivals[a];
    forall a | 0 <= a <= n ensures ArrivedAt(w, t, t.lockArrivals[a]) {
      assert a < n ==> ArrivedAt(w, s, s.lockArrivals[a]);
    }
    forall i: nat | i in s.lockArrivals ensures i in t.lockArrivals {
    }
    assert j in t.lockArrivals;
  }

  lemma {:induction false} AwaitsKnock(w: World, s: Sys, j: nat, key: string, a: nat)
    requires LockInv(w, s) && j < |s.phase| && s.phase[j].Packing? && LockKey(w.jobs[j]) == Some(key) && j !in s.lockArrivals
    requires var t := Knock(s, j, key);
             LockArrivals(w, t) && a < |t.lockArrivals| && t.phase[t.lockArrivals[a]].LockQueued?
    ensures AwaitsPrevious(w, Knock(s, j, key), a, Knock(s, j, key).lockArrivals[a])
  {
    var n := |s.lockArrivals|;
    if a < n {
      var i := s.lockArrivals[a];
      assert AwaitsPrevious(w, s, a, i);
      IsPreviousExtends(w.jobs, s.lockArrivals, j, a, LockKey(w.jobs[i]).value, s.phase[i].prev);
    } else {
      assert IsPrevious(w.jobs, s.lockArrivals, n, key, Tail(s, key));
      IsPreviousExtends(w.jobs, s.lockArrivals, j, n, key, Tail(s, key));
    }
    hide IsPrevious, LockInv;
  }

  lemma {:induction false} ReleasesKnock(w: World, s: Sys, j: nat, key: string)
    requires LockInv(w, s) && j < |s.phase| && LockArrivals(w, Knock(s, j, key)) && j !in s.lockArrivals
    ensures ReleaseOrder(w, Knock(s, j, key))
  {
    var t, n := Knock(s, j, key), |s.lockArrivals|;
    assert t.lockArrivals[n] == j && t.phase[j].LockQueued?;
    forall a, b | 0 <= a < b < |t.lockArrivals|
      ensures SameKey(w.jobs, t.lockArrivals[a], t.lockArrivals[b]) && !t.phase[t.lockArrivals[b]].LockQueued? ==>
                t.lockArrivals[a] in t.released
    {
      if b < n {
        assert t.lockArrivals[a] == s.lockArrivals[a] && t.lockArrivals[b] == s.lockArrivals[b];
      }
    }
  }

  /** Once the awaited task has released, every earlier task with the key has. */
  lemma {:induction false} EarlierReleased(w: World, s: Sys, a: int, b: int)
    requires LockInv(w, s) && 0 <= a < b < |s.lockArrivals|
    requires SameKey(w.jobs, s.lockArrivals[a], s.lockArrivals[b])
    requires s.phase[s.lockArrivals[b]].LockQueued? && CanStep(w, s, s.lockArrivals[b])
    ensures s.lockArrivals[a] in s.released
  {
    var j := s.lockArrivals[b];
    var key, prev := LockKey(w.jobs[j]).value, s.phase[j].prev;
    assert AwaitsPrevious(w, s, b, j);
    if prev.Some? {
      var c :| 0 <= c < b && s.lockArrivals[c] == prev.value && LockKey(w.jobs[prev.value]) == Some(key)
               && NoneBetween(w.jobs, s.lockArrivals, c + 1, b, key);
      assert a <= c;
      if a < c {
        assert SameKey(w.jobs, s.lockArrivals[a], s.lockArrivals[c]);
        assert ArrivedAt(w, s, s.lockArrivals[c]);
      }
    }
  }

  lemma {:induction false} LockInvAcquire(w: World, s: Sys, j: nat)
    requires LockInv(w, s) && CanStep(w, s, j) && s.phase[j].LockQueued?
    ensures LockInv(w, Step(w, s, j))
  {
    var t := Step(w, s, j);
    assert LockArrivals(w, t) by {
      forall a | 0 <= a < |t.lockArrivals| ensures ArrivedAt(w, t, t.lockArrivals[a]) {
        assert ArrivedAt(w, s, s.lockArrivals[a]);
      }
    }
    LockStepRest(w, s, t, j);
    forall a, b | 0 <= a < b < |t.lockArrivals| && SameKey(w.jobs, t.lockArrivals[a], t.lockArrivals[b])
                  && !t.phase[t.lockArrivals[b]].LockQueued?
      ensures t.lockArrivals[a] in t.released
    {
      if t.lockArrivals[b] == j {
        EarlierReleased(w, s, a, b);
      }
    }
  }

  /** Acquiring or releasing moves no tail, and the other waiting tasks keep awaiting the same task. */
  lemma {:induction false} LockStepRest(w: World, s: Sys, t: Sys, j: nat)
    requires LockInv(w, s) && LockArrivals(w, t) && t.tails == s.tails && t.lockArrivals == s.lockArrivals
    requires j < |s.phase| && t.phase == s.phase[j := t.phase[j]] && !t.phase[j].LockQueued?
    ensures TailsInv(w, t) && AwaitsInv(w, t)
  {
    forall key ensures IsPrevious(w.jobs, t.lockArrivals, |t.lockArrivals|, key, Tail(t, key)) {
      assert Tail(t, key) == Tail(s, key);
    }
    forall a | 0 <= a < |t.lockArrivals| && t.phase[t.lockArrivals[a]].LockQueued?
      ensures AwaitsPrevious(w, t, a, t.lockArrivals[a])
    {
      assert AwaitsPrevious(w, s, a, s.lockArrivals[a]);
    }
  }

  lemma {:induction false} LockInvRelease(w: World, s: Sys, j: nat)
    requires LockInv(w, s) && CanStep(w, s, j) && s.phase[j].LockHeld?
    ensures LockInv(w, Step(w, s, j))
  {
    var t := Step(w, s, j);
    assert LockArrivals(w, t) by {
      forall a | 0 <= a < |t.lockArrivals| ensures ArrivedAt(w, t, t.lockArrivals[a]) {
        assert ArrivedAt(w, s, s.lockArrivals[a]);
      }
    }
    LockStepRest(w, s, t, j);
    forall a, b | 0 <= a < b < |t.lockArrivals| && SameKey(w.jobs, t.lockArrivals[a], t.lockArrivals[b])
                  && !t.phase[t.lockArrivals[b]].LockQueued?
      ensures t.lockArrivals[a] in t.released
    {
      assert !s.phase[s.lockArrivals[b]].LockQueued?;
    }
  }

  lemma {:induction false} LockInvStep(w: World, s: Sys, j: nat)
    requires LockInv(w, s) && SlotInv(w, s) && CanStep(w, s, j)
    ensures LockInv(w, Step(w, s, j))
  {
    var job, p := w.jobs[j], s.phase[j];
    if p.LockQueued? {
      LockInvAcquire(w, s, j);
    } else if p.LockHeld? {
      LockInvRelease(w, s, j);
    } else if p.Packing? && LockKey(job).Some? && !job.pack.value.outcome.FailsBeforeLock? {
      LockInvKnock(w, s, j, LockKey(job).value);
    } else {
      LockFree(w, s, j);
      LockInvFrame(w, s, Step(w, s, j));
    }
  }

  /** The other steps move tasks between phases that say nothing about locks. */
  lemma {:induction false} LockFree(w: World, s: Sys, j: nat)
    requires SlotInv(w, s) && CanStep(w, s, j) && !InLock(s.phase[j])
    requires s.phase[j].Packing? ==> LockKey(w.jobs[j]).None? || w.jobs[j].pack.value.outcome.FailsBeforeLock?
    ensures var t := Step(w, s, j);
            && |t.phase| == |s.phase|
            && t.tails == s.tails && t.released == s.released && t.lockArrivals == s.lockArrivals
            && forall i :: 0 <= i < |s.phase| ==>
                 || t.phase[i] == s.phase[i]
                 || (!InLock(s.phase[i]) && !InLock(t.phase[i]) && MovesFreely(w, s.phase[i], t.phase[i], i))
  {
    StepPhases(w, s, j);
    MoverLockFree(w, s, j);
    hide Step, CanStep, SlotInv;
  }

  lemma {:induction false} MoverLockFree(w: World, s: Sys, j: nat)
    requires SlotInv(w, s) && CanStep(w, s, j) && !InLock(s.phase[j])
    requires s.phase[j].Packing? ==> LockKey(w.jobs[j]).None? || w.jobs[j].pack.value.outcome.FailsBeforeLock?
    ensures var t := Step(w, s, j);
            && j < |s.phase| == |t.phase|
            && t.tails == s.tails && t.released == s.released && t.lockArrivals == s.lockArrivals
            && !InLock(t.phase[j]) && MovesFreely(w, s.phase[j], t.phase[j], j)
  {
    if s.phase[j].PackDone? {
      LeaveMover(w, s, j, if PackOk(w.jobs[j]) then DepsWait else Finishing(false));
    } else if s.phase[j].Publishing? {
      LeaveMover(w, s, j, Finishing(w.jobs[j].publishes));
    }
  }

  // ---------------------------------------------------------------- outcomes

  /** The last phase a job takes without having packed successfully. */
  predicate BeforePacked(p: Phase) {
    Early(p) || p.LockQueued? || p.LockHeld? || p.PackDone?
  }

  predicate PublishPhase(p: Phase) {
    p.PublishQueued? || p.PublishGranted? || p.Publishing?
  }

  predicate PrereqsPublished(w: World, s: Sys, j: nat) {
    forall d | 0 <= d < |w.jobs| && d < |s.phase| :: Prereq(w.jobs, j, d) ==> s.phase[d] == Settled(true)
  }

  /** What a task's phase says about its own outcome. */
  ghost predicate OutcomeOk(w: World, s: Sys, j: nat, q: Phase)
    requires j < |w.jobs|
  {
    && (Early(q) && !q.Idle? ==> w.jobs[j].pack.Some?)
    && (q.DepsWait? || PublishPhase(q) ==> PackOk(w.jobs[j]))
    && (PublishPhase(q) ==> PrereqsPublished(w, s, j))
    && (q.Discarding? ==> PackOk(w.jobs[j]) && Blocked(w.jobs, j))
    && (q.Finishing? || q.Settled? ==> q.ok == !Doomed(w.jobs, j))
  }

  /**
   What the phase of a task says about its outcome. A task in a publish phase packed, and every prerequisite of it
   published; a task whose outcome is known fails exactly when it is doomed.
   */
  ghost predicate OutcomeInv(w: World, s: Sys) {
    |s.phase| == |w.jobs| && forall j: nat :: j < |s.phase| ==> OutcomeOk(w, s, j, s.phase[j])
  }

  /** A job is doomed exactly when it fails by itself or has a doomed prerequisite. */
  lemma {:induction false} DoomedUnfolds(jobs: seq<PublishJob>, j: nat)
    requires j < |jobs|
    ensures Doomed(jobs, j) <==> OwnFails(jobs[j]) || Blocked(jobs, j)
  {
    if OwnFails(jobs[j]) {
      assert Chain(jobs, [j]);
    }
    if Blocked(jobs, j) {
      var d: nat :| Prereq(jobs, j, d) && Doomed(jobs, d);
      var p :| Chain(jobs, p) && p[0] == d && OwnFails(jobs[p[|p| - 1]]);
      assert Chain(jobs, [j] + p);
    }
    if Doomed(jobs, j) && !OwnFails(jobs[j]) {
      var p :| Chain(jobs, p) && p[0] == j && OwnFails(jobs[p[|p| - 1]]);
      assert Chain(jobs, p[1..]);
      assert Prereq(jobs, j, p[1]);
      assert Doomed(jobs, p[1]);
    }
  }

  /** A settled task stays settled. */
  lemma {:induction false} StaysSettled(w: World, s: Sys, j: nat, i: nat)
    requires SlotInv(w, s) && CanStep(w, s, j) && i < |s.phase| && s.phase[i].Settled?
    ensures i != j && i < |Step(w, s, j).phase| && Step(w, s, j).phase[i] == s.phase[i]
  {
    StepPhases(w, s, j);
  }

  lemma {:induction false} OutcomeOfLeaver(w: World, s: Sys, j: nat)
    requires SlotInv(w, s) && OutcomeInv(w, s) && CanStep(w, s, j) && (s.phase[j].PackDone? || s.phase[j].Publishing?)
    ensures |Step(w, s, j).phase| == |s.phase| && OutcomeOk(w, s, j, Step(w, s, j).phase[j])
  {
    var job, p := w.jobs[j], s.phase[j];
    assert OutcomeOk(w, s, j, p);
    var next := if p.Publishing? then Finishing(job.publishes) else if PackOk(job) then DepsWait else Finishing(false);
    assert OutcomeOk(w, s, j, next) by {
      if p.Publishing? {
        ClearIsNotDoomed(w, s, j);
      } else {
        DoomedUnfolds(w.jobs, j);
      }
    }
    LeaveMover(w, s, j, next);
  }

  lemma {:induction false} OutcomeOfMover(w: World, s: Sys, j: nat)
    requires SlotInv(w, s) && OutcomeInv(w, s) && CanStep(w, s, j)
    ensures |Step(w, s, j).phase| == |s.phase| && OutcomeOk(w, s, j, Step(w, s, j).phase[j])
  {
    var p := s.phase[j];
    if p.PackDone? || p.Publishing? {
      OutcomeOfLeaver(w, s, j);
    } else if p.DepsWait? {
      OutcomeOfWaiter(w, s, j);
    } else if p.Discarding? {
      OutcomeOfDiscarded(w, s, j);
    } else {
      assert OutcomeOk(w, s, j, p);
    }
  }

  lemma {:induction false} OutcomeOfDiscarded(w: World, s: Sys, j: nat)
    requires OutcomeInv(w, s) && CanStep(w, s, j) && s.phase[j].Discarding?
    ensures |Step(w, s, j).phase| == |s.phase| && OutcomeOk(w, s, j, Step(w, s, j).phase[j])
  {
    assert OutcomeOk(w, s, j, s.phase[j]);
    DoomedUnfolds(w.jobs, j);
  }

  lemma {:induction false} OutcomeOfWaiter(w: World, s: Sys, j: nat)
    requires OutcomeInv(w, s) && CanStep(w, s, j) && s.phase[j].DepsWait?
    ensures |Step(w, s, j).phase| == |s.phase| && OutcomeOk(w, s, j, Step(w, s, j).phase[j])
  {
    assert OutcomeOk(w, s, j, s.phase[j]);
    BlockedIsDoomed(w, s, j);
  }

  lemma {:induction false} BlockedIsDoomed(w: World, s: Sys, j: nat)
    requires OutcomeInv(w, s) && j < |s.phase| && AllSettled(w.jobs, s.phase, j)
    ensures AnyFailed(w.jobs, s.phase, j) ==> Blocked(w.jobs, j)
    ensures !AnyFailed(w.jobs, s.phase, j) ==> PrereqsPublished(w, s, j)
  {
    DoomedUnfolds(w.jobs, j);
    assert forall d: nat :: Prereq(w.jobs, j, d) ==> OutcomeOk(w, s, d, s.phase[d]);
    if AnyFailed(w.jobs, s.phase, j) {
      var d :| 0 <= d < |w.jobs| && d < |s.phase| && Prereq(w.jobs, j, d) && s.phase[d] == Settled(false);
      assert Doomed(w.jobs, d);
    }
  }

  lemma {:induction false} ClearIsNotDoomed(w: World, s: Sys, j: nat)
    requires OutcomeInv(w, s) && j < |s.phase| && PrereqsPublished(w, s, j)
    ensures Doomed(w.jobs, j) <==> OwnFails(w.jobs[j])
  {
    DoomedUnfolds(w.jobs, j);
    forall d: nat | Prereq(w.jobs, j, d) ensures !Doomed(w.jobs, d) {
      assert s.phase[d] == Settled(true);
    }
  }

  lemma {:induction false} OutcomeInvStep(w: World, s: Sys, j: nat)
    requires SlotInv(w, s) && OutcomeInv(w, s) && CanStep(w, s, j)
    ensures OutcomeInv(w, Step(w, s, j))
  {
    var t := Step(w, s, j);
    StepPhases(w, s, j);
    OutcomeOfMover(w, s, j);
    forall i: nat | i < |t.phase| ensures OutcomeOk(w, t, i, t.phase[i]) {
      assert OutcomeOk(w, s, i, s.phase[i]);
      assert OutcomeOk(w, s, i, t.phase[i]);
      if PublishPhase(t.phase[i]) {
        forall d | 0 <= d < |w.jobs| && Prereq(w.jobs, i, d) ensures t.phase[d] == Settled(true) {
          assert s.phase[d] == Settled(true);
          StaysSettled(w, s, j, d);
        }
      }
    }
  }

  // ---------------------------------------------------------------- output blocks

  /** One block per settled task, none for the others. */
  ghost predicate WrittenInv(s: Sys) {
    Distinct(s.written)
    && (forall i :: 0 <= i < |s.written| ==> s.written[i] < |s.phase|)
    && (forall j: nat :: j < |s.phase| ==> (j in s.written <==> s.phase[j].Settled?))
  }

  lemma {:induction false} WrittenInvStep(w: World, s: Sys, j: nat)
    requires WrittenInv(s) && SlotInv(w, s) && CanStep(w, s, j)
    ensures WrittenInv(Step(w, s, j))
  {
    var t := Step(w, s, j);
    SettledAfterStep(w, s, j);
    if s.phase[j].Finishing? {
      assert j !in s.written && t.written[|s.written|] == j;
      forall i: nat | i < |t.phase| ensures i in t.written <==> t.phase[i].Settled? {
        assert i in t.written <==> i in s.written || i == j;
      }
    }
  }

  // ---------------------------------------------------------------- together

  ghost predicate Inv(w: World, s: Sys) {
    SlotInv(w, s) && LockInv(w, s) && OutcomeInv(w, s) && WrittenInv(s)
  }

  lemma {:induction false} SlotInvInit(w: World)
    requires WellFormed(w)
    ensures SlotInv(w, Init(w))
  {
    assert Holders(Init(w).phase) == {};
  }

  lemma {:induction false} LockInvInit(w: World)
    ensures LockInv(w, Init(w))
  {
    var s := Init(w);
    assert LockArrivals(w, s);
    assert TailsInv(w, s) by {
      forall key ensures IsPrevious(w.jobs, s.lockArrivals, 0, key, Tail(s, key)) {
        assert NoneBetween(w.jobs, s.lockArrivals, 0, 0, key);
      }
    }
  }

  lemma {:induction false} OutcomeInvInit(w: World)
    ensures OutcomeInv(w, Init(w)) && WrittenInv(Init(w))
  {
    hide Blocked, Doomed, PrereqsPublished;
  }

  lemma {:induction false} InvInit(w: World)
    requires WellFormed(w)
    ensures Inv(w, Init(w))
  {
    SlotInvInit(w);
    LockInvInit(w);
    OutcomeInvInit(w);
    hide SlotInv, LockInv, OutcomeInv, WrittenInv, Init;
  }

  lemma {:induction false} InvStep(w: World, s: Sys, j: nat)
    requires WellFormed(w) && Inv(w, s) && CanStep(w, s, j)
    ensures Inv(w, Step(w, s, j))
  {
    SlotInvStep(w, s, j);
    LockInvStep(w, s, j);
    OutcomeInvStep(w, s, j);
    WrittenInvStep(w, s, j);
  }

  lemma {:induction false} InvRun(w: World, schedule: seq<nat>)
    requires WellFormed(w) && Run(w, schedule).Some?
    ensures Inv(w, Run(w, schedule).value)
  {
    if schedule == [] {
      InvInit(w);
    } else {
      var prefix := schedule[..|schedule| - 1];
      InvRun(w, prefix);
      InvStep(w, Run(w, prefix).value, schedule[|schedule| - 1]);
    }
  }
}
