/**
 The scheduler's guarantees over whole runs, for every configuration and every
 interleaving: refinement, absence of deadlock, termination, exact bounds and
 slot exclusivity.
 */
module SchedulerTheorems {
  import opened Basics
  import opened TaskQueues
  import opened Scheduler
  import opened SchedulerSpec
  import opened SchedulerFlow
  import opened SchedulerLead
  import opened SchedulerSignal
  import opened SchedulerWork
  import opened SchedulerProgress

  // ---------------------------------------------------------------- refinement

  /** What remains to be done, run without threads, still yields the promised effect. */
  ghost predicate SpecInv(c: Config, d: Lead)
    requires ValidConfig(c) && d.nextToCommit <= c.taskCount && d.windowStart <= c.taskCount
  {
    if Finishing(d.at) then Effect(d.calls, d.at.verdict) == Promise(c)
    else if !c.windowed then Sequential(c, d.nextToCommit, d.calls) == Promise(c)
    else if d.at.CommitWindow? then
      && d.nextToCommit <= WindowEnd(c, d) && AllGood(c, d.nextToCommit, WindowEnd(c, d))
      && InWindow(c, d.nextToCommit, WindowEnd(c, d), d.calls) == Promise(c)
    else Windows(c, d.windowStart, d.calls) == Promise(c)
  }

  /** The callback is shown the committed ordinal's own data. */
  lemma CommitShowsOwnData(c: Config, s: State)
    requires WellFormed(c, s) && Conserved(s) && DoneInv(s) && SlotInv(c, s)
    requires s.lead.nextToCommit in s.lead.pending && s.lead.nextToCommit < c.taskCount
    requires !Fails(c, s.lead.nextToCommit)
    ensures Call(s.lead.nextToCommit, s.work.slots[s.lead.nextToCommit % c.maxInFlight]) == OwnCall(c, s.lead.nextToCommit)
  {
    InFlightRange(s, s.lead.nextToCommit);
  }

  lemma FrontierKeepsSpec(c: Config, s: State)
    requires WellFormed(c, s) && Conserved(s) && LeadInv(c, s.shared, s.lead) && DoneInv(s) && SlotInv(c, s)
    requires SpecInv(c, s.lead) && s.lead.at.Frontier? && WellFormed(c, FrontierNext(c, s))
    ensures SpecInv(c, FrontierNext(c, s).lead)
  {
    var k := s.lead.nextToCommit;
    if k < c.taskCount && k in s.lead.pending && !Fails(c, k) {
      CommitShowsOwnData(c, s);
    }
  }

  lemma CollectKeepsSpec(c: Config, s: State)
    requires WellFormed(c, s) && Conserved(s) && LeadInv(c, s.shared, s.lead)
    requires SpecInv(c, s.lead) && s.lead.at.Collect?
    ensures SpecInv(c, CollectNext(c, s).lead)
  {
    var d := s.lead;
    var end := WindowEnd(c, d);
    if |d.pending| >= end - d.windowStart {
      forall k | d.windowStart <= k < end ensures k in d.pending {
        CollectedWindow(c, s, k);
      }
      var k := FirstFailure(c, d.pending, d.windowStart, end);
      assert EndOfWindow(c, d.windowStart) == end;
      if k < end {
        assert !AllGood(c, d.windowStart, end);
        assert SmallestFailing(c, d.windowStart, end) == k;
      } else {
        assert AllGood(c, d.windowStart, end);
      }
    }
  }

  lemma CommitWindowKeepsSpec(c: Config, s: State)
    requires WellFormed(c, s) && Conserved(s) && LeadInv(c, s.shared, s.lead) && DoneInv(s) && SlotInv(c, s)
    requires SpecInv(c, s.lead) && s.lead.at.CommitWindow? && WellFormed(c, CommitWindowNext(c, s))
    ensures SpecInv(c, CommitWindowNext(c, s).lead)
  {
    if s.lead.nextToCommit < WindowEnd(c, s.lead) {
      CommitShowsOwnData(c, s);
      CommitInWindowKeepsSpec(c, s);
    }
  }

  lemma CommitInWindowKeepsSpec(c: Config, s: State)
    requires WellFormed(c, s) && SpecInv(c, s.lead)
    requires c.windowed && s.lead.at.CommitWindow? && s.lead.nextToCommit < WindowEnd(c, s.lead)
    requires WellFormed(c, CommitNext(c, s))
    requires Call(s.lead.nextToCommit, s.work.slots[s.lead.nextToCommit % c.maxInFlight]) == OwnCall(c, s.lead.nextToCommit)
    ensures SpecInv(c, CommitNext(c, s).lead)
  {
  }

  /** Steps that decide nothing leave the promise alone. */
  lemma WindowPhaseKeepsSpec(c: Config, s: State)
    requires WellFormed(c, s) && LeadInv(c, s.shared, s.lead) && SpecInv(c, s.lead) && Windowing(s.lead.at)
    requires WellFormed(c, WindowPhase(c, s))
    requires LeadInv(c, WindowPhase(c, s).shared, WindowPhase(c, s).lead)
    ensures SpecInv(c, WindowPhase(c, s).lead)
  {
    assert WindowPhase(c, s).lead.calls == s.lead.calls;
  }

  lemma QueuePhaseKeepsSpec(c: Config, s: State)
    requires WellFormed(c, s) && LeadInv(c, s.shared, s.lead) && SpecInv(c, s.lead) && CoordinatorEnabled(s)
    requires !Finishing(s.lead.at) && !Committing(s.lead.at) && !Windowing(s.lead.at)
    requires WellFormed(c, QueuePhase(c, s))
    requires LeadInv(c, QueuePhase(c, s).shared, QueuePhase(c, s).lead)
    ensures SpecInv(c, QueuePhase(c, s).lead)
  {
    assert QueuePhase(c, s).lead.calls == s.lead.calls;
  }

  // ---------------------------------------------------------------- the invariant

  ghost predicate Inv(c: Config, s: State) {
    && WellFormed(c, s)
    && Conserved(s)
    && LeadInv(c, s.shared, s.lead)
    && PoolInv(s)
    && SignalInv(c, s)
    && DoneInv(s)
    && SlotInv(c, s)
    && ReportInv(c, s.lead)
    && CallsInv(s.lead)
    && SpecInv(c, s.lead)
    && (CountersFit(c) ==> CounterInv(c, s))
  }

  lemma {:induction false} AllIdle(n: nat, k: nat)
    ensures Holders(seq(n, _ => Idle), k) == 0 && HeldTotal(seq(n, _ => Idle)) == 0
  {
    if n > 0 {
      assert seq(n, _ => Idle)[..n - 1] == seq(n - 1, _ => Idle);
      AllIdle(n - 1, k);
    }
  }

  lemma InitInv(c: Config)
    requires ValidConfig(c)
    ensures Inv(c, Init(c))
  {
    var s := Init(c);
    AllIdle(c.workerCount, 0);
    forall k: nat ensures Places(s, k) == 0 {
      AllIdle(c.workerCount, k);
    }
    PendingNone(s.work.done, 0);
    NoneRows(c, s.work.done, 0);
  }

  lemma {:induction false} NoneRows(c: Config, done: seq<bool>, k: nat)
    requires k <= |done| == |c.outcomes| == |c.rowCounts| && forall j :: k <= j < |done| ==> !done[j]
    ensures PendingRows(c, done, k) == 0
    decreases |done| - k
  {
    if k < |done| {
      NoneRows(c, done, k + 1);
    }
  }

  /** Conservation and the frontier keep a state well formed. */
  lemma StaysWellFormed(c: Config, s: State)
    requires ValidConfig(c) && Conserved(s) && LeadInv(c, s.shared, s.lead)
    requires |s.workers| == c.workerCount && |s.work.slots| == c.maxInFlight && |s.work.done| == c.taskCount
    ensures WellFormed(c, s)
  {
    forall i | 0 <= i < |s.workers| && s.workers[i].Running? ensures s.workers[i].ordinal < c.taskCount {
      CarriedInFlight(s, i);
    }
    if s.lead.at.Got? {
      InFlightRange(s, s.lead.at.ordinal);
    }
  }

  lemma WorkerKeepsInv(c: Config, s: State, i: nat)
    requires Inv(c, s) && i < |s.workers| && WorkerEnabled(s.shared, s.workers[i])
    ensures Inv(c, WorkerNext(c, s, i))
  {
    WorkerConserves(c, s, i);
    WorkerKeepsLead(c, s, i);
    WorkerKeepsPool(c, s, i);
    WorkerKeepsSignal(c, s, i);
    WorkerKeepsDone(c, s, i);
    StaysWellFormed(c, WorkerNext(c, s, i));
    WorkerKeepsSlots(c, s, i);
    if CountersFit(c) {
      WorkerKeepsCounters(c, s, i);
    }
  }

  lemma CoordinatorKeepsSpec(c: Config, s: State)
    requires Inv(c, s) && CoordinatorEnabled(s)
    requires WellFormed(c, CoordinatorNext(c, s))
    requires LeadInv(c, CoordinatorNext(c, s).shared, CoordinatorNext(c, s).lead)
    ensures SpecInv(c, CoordinatorNext(c, s).lead)
  {
    if Committing(s.lead.at) {
      CommitPhaseKeepsSpec(c, s);
    } else if Windowing(s.lead.at) {
      WindowPhaseKeepsSpec(c, s);
    } else if !Finishing(s.lead.at) {
      QueuePhaseKeepsSpec(c, s);
    }
  }

  lemma CommitPhaseKeepsSpec(c: Config, s: State)
    requires Inv(c, s) && Committing(s.lead.at)
    requires WellFormed(c, CommitPhase(c, s))
    ensures SpecInv(c, CommitPhase(c, s).lead)
  {
    match s.lead.at
    case Frontier => FrontierKeepsSpec(c, s);
    case Collect => CollectKeepsSpec(c, s);
    case CommitWindow => CommitWindowKeepsSpec(c, s);
  }

  lemma CoordinatorKeepsInv(c: Config, s: State)
    requires Inv(c, s) && CoordinatorEnabled(s)
    ensures Inv(c, CoordinatorNext(c, s))
  {
    CoordinatorConserves(c, s);
    CoordinatorKeepsLead(c, s);
    CoordinatorKeepsPool(c, s);
    CoordinatorLeavesDone(c, s);
    CoordinatorLeavesWorkers(c, s);
    StaysWellFormed(c, CoordinatorNext(c, s));
    CoordinatorKeepsSignal(c, s);
    CoordinatorKeepsDone(c, s);
    CoordinatorKeepsSlots(c, s);
    CoordinatorKeepsReport(c, s);
    CoordinatorKeepsCalls(c, s);
    CoordinatorKeepsSpec(c, s);
    if CountersFit(c) {
      CoordinatorKeepsCounters(c, s);
    }
  }

  lemma CoordinatorLeavesWorkers(c: Config, s: State)
    requires WellFormed(c, s) && CoordinatorEnabled(s)
    ensures CoordinatorNext(c, s).workers == s.workers
  {
  }

  lemma StepKeepsInv(c: Config, s: State, t: Thread)
    requires Inv(c, s) && Enabled(c, s, t)
    ensures Inv(c, Next(c, s, t))
    ensures Measure(c, Next(c, s, t)) < Measure(c, s)
  {
    match t
    case TheCoordinator =>
      CoordinatorKeepsInv(c, s);
      CoordinatorDescends(c, s);
    case TheWorker(i) =>
      WorkerKeepsInv(c, s, i);
      WorkerDescends(c, s, i);
  }

  lemma PrefixRun(c: Config, ss: seq<State>, ts: seq<Thread>, n: nat)
    requires IsRun(c, ss, ts) && n <= |ts|
    ensures IsRun(c, ss[..n + 1], ts[..n])
  {
  }

  /** At the end of any run the invariant holds and the measure has dropped by at least the steps taken. */
  lemma {:induction false} LastInv(c: Config, ss: seq<State>, ts: seq<Thread>)
    requires ValidConfig(c) && IsRun(c, ss, ts)
    ensures Inv(c, ss[|ss| - 1]) && Measure(c, ss[|ss| - 1]) + |ts| <= Measure(c, Init(c))
    decreases |ts|
  {
    if ts == [] {
      InitInv(c);
    } else {
      var n := |ts| - 1;
      PrefixRun(c, ss, ts, n);
      LastInv(c, ss[..n + 1], ts[..n]);
      assert ss[..n + 1][n] == ss[n];
      StepKeepsInv(c, ss[n], ts[n]);
    }
  }

  /** The invariant holds in every state of every run. */
  lemma RunInv(c: Config, ss: seq<State>, ts: seq<Thread>)
    requires ValidConfig(c) && IsRun(c, ss, ts)
    ensures forall j :: 0 <= j < |ss| ==> Inv(c, ss[j])
    ensures Inv(c, ss[|ss| - 1]) && Measure(c, ss[|ss| - 1]) + |ts| <= Measure(c, Init(c))
  {
    LastInv(c, ss, ts);
    forall j | 0 <= j < |ss| ensures Inv(c, ss[j]) {
      StateInv(c, ss, ts, j);
    }
  }

  lemma StateInv(c: Config, ss: seq<State>, ts: seq<Thread>, j: nat)
    requires ValidConfig(c) && IsRun(c, ss, ts) && j < |ss|
    ensures Inv(c, ss[j])
  {
    PrefixRun(c, ss, ts, j);
    LastInv(c, ss[..j + 1], ts[..j]);
    assert ss[..j + 1][j] == ss[j];
  }

  // ---------------------------------------------------------------- theorems

  /**
   Refinement.  Every complete run, in either mode and under any interleaving,
   makes exactly the promised callback invocations, each shown its own row
   group's data, and ends with the promised verdict and report.
   */
  lemma Refinement(c: Config, ss: seq<State>, ts: seq<Thread>)
    requires ValidConfig(c) && IsRun(c, ss, ts) && Complete(ss[|ss| - 1])
    ensures var d := ss[|ss| - 1].lead;
            && Effect(d.calls, d.at.verdict) == Promise(c)
            && (d.at.verdict.Failed? ==> d.at.verdict.error != WorkersEnded && d.at.verdict.error != DuplicateOrdinal)
            && (d.at.verdict == Finished(false) ==> d.nextToCommit == c.taskCount)
            && d.nextToCommit <= c.taskCount
            && d.report.committed == Min(d.nextToCommit, U64_LIMIT - 1)
            && d.report.rowsCommitted == SaturatedRows(c.rowCounts, d.nextToCommit)
            && 1 <= d.report.maxInFlightSeen <= c.maxInFlight
  {
    RunInv(c, ss, ts);
  }

  /** Total correctness: a run that cannot be extended is complete, with the promised effect. */
  lemma MaximalRunsComplete(c: Config, ss: seq<State>, ts: seq<Thread>)
    requires ValidConfig(c) && IsRun(c, ss, ts)
    requires var s := ss[|ss| - 1]; forall t :: !Enabled(c, s, t)
    ensures var s := ss[|ss| - 1]; Complete(s) && Effect(s.lead.calls, s.lead.at.verdict) == Promise(c)
  {
    RunInv(c, ss, ts);
    var s := ss[|ss| - 1];
    if !Complete(s) {
      NoDeadlock(c, s);
    }
  }

  /** Every run can be driven to completion, so complete runs exist. */
  lemma {:induction false} CanComplete(c: Config, ss: seq<State>, ts: seq<Thread>)
    returns (ss': seq<State>, ts': seq<Thread>)
    requires ValidConfig(c) && IsRun(c, ss, ts)
    ensures IsRun(c, ss', ts') && Complete(ss'[|ss'| - 1])
    ensures ss <= ss' && ts <= ts'
    decreases StepBound(c) - |ts|
  {
    if Complete(ss[|ss| - 1]) {
      ss', ts' := ss, ts;
    } else {
      var longer, schedule := OneMoreStep(c, ss, ts);
      Terminates(c, longer, schedule);
      ss', ts' := CanComplete(c, longer, schedule);
    }
  }

  lemma OneMoreStep(c: Config, ss: seq<State>, ts: seq<Thread>) returns (ss': seq<State>, ts': seq<Thread>)
    requires ValidConfig(c) && IsRun(c, ss, ts) && !Complete(ss[|ss| - 1])
    ensures IsRun(c, ss', ts') && ss <= ss' && ts <= ts' && |ts'| == |ts| + 1
  {
    DeadlockFree(c, ss, ts);
    var s := ss[|ss| - 1];
    var t :| Enabled(c, s, t);
    ss', ts' := ss + [Next(c, s, t)], ts + [t];
  }

  /** Safety of unfinished runs: what has been delivered so far is a prefix of the promise. */
  lemma DeliveredSoFar(c: Config, ss: seq<State>, ts: seq<Thread>, j: nat)
    requires ValidConfig(c) && IsRun(c, ss, ts) && j < |ss|
    ensures ss[j].lead.calls <= Promise(c).calls
  {
    RunInv(c, ss, ts);
    var d := ss[j].lead;
    if !Finishing(d.at) {
      if !c.windowed {
        SequentialExtends(c, d.nextToCommit, d.calls);
      } else if d.at.CommitWindow? {
        InWindowExtends(c, d.nextToCommit, WindowEnd(c, d), d.calls);
      } else {
        WindowsExtends(c, d.windowStart, d.calls);
      }
    }
  }

  /** No deadlock: in every unfinished state of every run, some thread can move. */
  lemma DeadlockFree(c: Config, ss: seq<State>, ts: seq<Thread>)
    requires ValidConfig(c) && IsRun(c, ss, ts) && !Complete(ss[|ss| - 1])
    ensures var s := ss[|ss| - 1]; exists t :: Enabled(c, s, t)
  {
    RunInv(c, ss, ts);
    NoDeadlock(c, ss[|ss| - 1]);
  }

  lemma {:induction false} IdleRanks(on: bool, g: nat, n: nat)
    ensures UnitSum(seq(n, _ => Idle)) == 0 && RankSum(on, g, seq(n, _ => Idle)) == n
  {
    if n > 0 {
      assert seq(n, _ => Idle)[..n - 1] == seq(n - 1, _ => Idle);
      IdleRanks(on, g, n - 1);
    }
  }

  /** An explicit bound on the length of any run. */
  function StepBound(c: Config): nat {
    (10 * c.workerCount + 40) * (19 * c.taskCount + 9) + c.workerCount + 18
  }

  lemma InitialMeasure(c: Config)
    requires ValidConfig(c)
    ensures Measure(c, Init(c)) <= StepBound(c)
  {
    var s := Init(c);
    IdleRanks(s.shared.notifyOn, 0, c.workerCount);
    var v := UnitValue(c.workerCount);
    assert Units(c, s) <= 19 * c.taskCount + 9;
    assert v * Units(c, s) <= v * (19 * c.taskCount + 9);
  }

  /** Termination: no run is longer than the bound. */
  lemma Terminates(c: Config, ss: seq<State>, ts: seq<Thread>)
    requires ValidConfig(c) && IsRun(c, ss, ts)
    ensures |ts| <= StepBound(c)
  {
    RunInv(c, ss, ts);
    InitialMeasure(c);
  }

  /**
   Bounds and conservation in every reachable state: the in-flight cap, the
   queue capacities, one stage per launched ordinal, and counters that never
   wrap or underflow.
   */
  lemma Bounds(c: Config, ss: seq<State>, ts: seq<Thread>, j: nat)
    requires ValidConfig(c) && IsRun(c, ss, ts) && j < |ss|
    ensures var s := ss[j];
            && s.lead.nextToCommit <= s.lead.nextToQueue <= c.taskCount
            && s.lead.nextToQueue - s.lead.nextToCommit <= c.maxInFlight
            && |s.shared.queue.tasks| <= c.taskCapacity && |s.shared.results| <= c.resultCapacity
            && (forall k: nat :: Places(s, k) == if s.lead.nextToCommit <= k < s.lead.nextToQueue then 1 else 0)
            && |s.work.done| == c.taskCount
            && s.lead.nextToCommit <= PendingCount(s.work.done, 0) <= s.lead.nextToQueue
  {
    RunInv(c, ss, ts);
    var s := ss[j];
    PendingCountBound(s.work.done, 0, s.lead.nextToQueue);
    CommittedAreDone(s.work.done, 0, s.lead.nextToCommit);
  }

  lemma {:induction false} CommittedAreDone(done: seq<bool>, k: nat, end: nat)
    requires k <= end <= |done| && forall j :: k <= j < end ==> done[j]
    ensures PendingCount(done, k) >= end - k
    decreases |done| - k
  {
    if k < end {
      CommittedAreDone(done, k + 1, end);
    }
  }

  lemma CountersExact(c: Config, ss: seq<State>, ts: seq<Thread>, j: nat)
    requires ValidConfig(c) && IsRun(c, ss, ts) && j < |ss| && CountersFit(c)
    ensures var s := ss[j]; var o := s.work.observations;
            && |s.work.done| == c.taskCount && s.lead.nextToCommit <= c.taskCount
            && o.pendingResults == PendingCount(s.work.done, s.lead.nextToCommit)
            && o.pendingRows == PendingRows(c, s.work.done, s.lead.nextToCommit)
            && o.maxPendingResults <= c.maxInFlight && o.maxPendingRows <= RowTotal(c.rowCounts)
  {
    RunInv(c, ss, ts);
  }

  /** Slot exclusivity: two different ordinals in flight never share a slot, in any reachable state. */
  lemma SlotExclusive(c: Config, ss: seq<State>, ts: seq<Thread>, j: nat, a: nat, b: nat)
    requires ValidConfig(c) && IsRun(c, ss, ts) && j < |ss|
    requires a != b && Places(ss[j], a) > 0 && Places(ss[j], b) > 0
    ensures a % c.maxInFlight != b % c.maxInFlight
  {
    RunInv(c, ss, ts);
    InFlightRange(ss[j], a);
    InFlightRange(ss[j], b);
    if a < b {
      SlotsDistinct(a, b, c.maxInFlight);
    } else {
      SlotsDistinct(b, a, c.maxInFlight);
    }
  }

  /** The generation counter moves at most once per step, so it stays below the step bound. */
  lemma {:induction false} GenerationBound(c: Config, ss: seq<State>, ts: seq<Thread>)
    requires ValidConfig(c) && IsRun(c, ss, ts)
    ensures ss[|ss| - 1].shared.generation <= |ts|
    decreases |ts|
  {
    if ts != [] {
      var n := |ts| - 1;
      assert IsRun(c, ss[..n + 1], ts[..n]);
      GenerationBound(c, ss[..n + 1], ts[..n]);
      NextGeneration(c, ss[n], ts[n]);
    }
  }

  lemma NextGeneration(c: Config, s: State, t: Thread)
    requires Enabled(c, s, t)
    ensures Next(c, s, t).shared.generation <= s.shared.generation + 1
  {
    if t.TheCoordinator? {
      CoordinatorAnnounces(c, s);
    } else {
      WorkerGeneration(c, s, t.id);
    }
  }

  lemma WorkerGeneration(c: Config, s: State, i: nat)
    requires WellFormed(c, s) && i < |s.workers| && WorkerEnabled(s.shared, s.workers[i])
    ensures WorkerNext(c, s, i).shared.generation <= s.shared.generation + 1
  {
  }
}
