/**
 What execution leaves behind: which ordinals have completed, the pending
 counters, the reusable slots, and the report.
 */
module SchedulerWork {
  import opened Basics
  import opened TaskQueues
  import opened Scheduler
  import opened SchedulerFlow
  import opened SchedulerLead

  // ---------------------------------------------------------------- completion

  predicate NotYetRun(w: Worker) { w.Popped? || w.Taken? || w.Running? }

  predicate AlreadyRun(w: Worker) { w.Ready? || w.Checked? || w.Snapped? || w.Blocked? }

  ghost predicate WorkerDoneInv(done: seq<bool>, w: Worker) {
    && (NotYetRun(w) ==> w.ordinal < |done| && !done[w.ordinal])
    && (AlreadyRun(w) ==> w.ordinal < |done| && done[w.ordinal])
  }

  /** An ordinal has completed exactly when it has passed through a worker. */
  ghost predicate DoneInv(s: State) {
    var done := s.work.done;
    && (forall k :: k in s.shared.queue.tasks ==> k < |done| && !done[k])
    && (forall k :: s.lead.nextToQueue <= k < |done| ==> !done[k])
    && (forall k :: k in s.shared.results ==> k < |done| && done[k])
    && (forall k :: k in s.lead.pending ==> k < |done| && done[k])
    && (s.lead.at.Got? ==> s.lead.at.ordinal < |done| && done[s.lead.at.ordinal])
    && (forall k :: 0 <= k < s.lead.nextToCommit && k < |done| ==> done[k])
    && (forall i :: 0 <= i < |s.workers| ==> WorkerDoneInv(done, s.workers[i]))
  }

  /** An ordinal that is being executed is held by nobody else. */
  lemma OnlyHolder(s: State, i: nat)
    requires Conserved(s) && i < |s.workers| && Carries(s.workers[i]).Some?
    ensures var k := Carries(s.workers[i]).value;
            && s.lead.nextToCommit <= k < s.lead.nextToQueue
            && k !in s.shared.queue.tasks && k !in s.shared.results && k !in s.lead.pending && s.lead.at != Got(k)
            && forall j :: 0 <= j < |s.workers| && j != i ==> Carries(s.workers[j]) != Some(k)
  {
    var k := Carries(s.workers[i]).value;
    CarriedInFlight(s, i);
    HoldersHas(s.workers, i, k);
    assert Places(s, k) == 1;
    forall j | 0 <= j < |s.workers| && j != i ensures Carries(s.workers[j]) != Some(k) {
      if i < j {
        HoldersTwo(s.workers, i, j, k);
      } else {
        HoldersTwo(s.workers, j, i, k);
      }
    }
  }

  lemma RunningKeepsDone(c: Config, s: State, i: nat)
    requires WellFormed(c, s) && Conserved(s) && DoneInv(s)
    requires i < |s.workers| && s.workers[i].Running?
    ensures DoneInv(WorkerNext(c, s, i))
  {
    var s' := WorkerNext(c, s, i);
    OnlyHolder(s, i);
    forall j | 0 <= j < |s'.workers| ensures WorkerDoneInv(s'.work.done, s'.workers[j]) {
      assert WorkerDoneInv(s.work.done, s.workers[j]);
    }
  }

  lemma WorkerMovesKeepDone(s: State, s': State, i: nat)
    requires DoneInv(s) && i < |s.workers| && WorkerMoves(s, s', i) && s'.work.done == s.work.done
    requires WorkerDoneInv(s.work.done, s'.workers[i])
    requires AlreadyRun(s.workers[i]) || Carries(s'.workers[i]) == Carries(s.workers[i]) || s.workers[i].Idle?
    ensures DoneInv(s')
  {
    assert WorkerDoneInv(s.work.done, s.workers[i]);
    if s.shared.queue.tasks != [] {
      assert s.shared.queue.tasks[0] in s.shared.queue.tasks;
      assert forall k :: k in s.shared.queue.tasks[1..] ==> k in s.shared.queue.tasks;
    }
    forall j | 0 <= j < |s'.workers| ensures WorkerDoneInv(s'.work.done, s'.workers[j]) {
      assert WorkerDoneInv(s.work.done, s.workers[j]);
    }
  }

  lemma WorkerKeepsDone(c: Config, s: State, i: nat)
    requires WellFormed(c, s) && Conserved(s) && DoneInv(s)
    requires i < |s.workers| && WorkerEnabled(s.shared, s.workers[i])
    ensures DoneInv(WorkerNext(c, s, i))
  {
    if s.workers[i].Running? {
      RunningKeepsDone(c, s, i);
    } else {
      assert WorkerDoneInv(s.work.done, s.workers[i]);
      WorkerNextMoves(c, s, i);
      WorkerMovesKeepDone(s, WorkerNext(c, s, i), i);
    }
  }

  lemma MovedKeepsDone(s: State, s': State, m: Move)
    requires DoneInv(s) && Moved(s, s', m) && s'.work.done == s.work.done
    requires s'.lead.nextToQueue <= |s.work.done|
    ensures DoneInv(s')
  {
    if m.Receives? {
      assert s.shared.results[0] in s.shared.results;
      assert forall k :: k in s.shared.results[1..] ==> k in s.shared.results;
    }
    forall i | 0 <= i < |s'.workers| ensures WorkerDoneInv(s'.work.done, s'.workers[i]) {
      assert WorkerDoneInv(s.work.done, s.workers[i]);
    }
  }

  lemma PushWindowKeepsDone(c: Config, s: State)
    requires WellFormed(c, s) && LeadInv(c, s.shared, s.lead) && DoneInv(s) && s.lead.at.PushWindow?
    ensures DoneInv(PushWindowNext(c, s))
  {
    var s' := PushWindowNext(c, s);
    assert forall k :: k in s'.shared.queue.tasks ==> k in s.shared.queue.tasks || s.lead.nextToQueue <= k < s'.lead.nextToQueue;
    forall i | 0 <= i < |s'.workers| ensures WorkerDoneInv(s'.work.done, s'.workers[i]) {
      assert WorkerDoneInv(s.work.done, s.workers[i]);
    }
  }

  lemma CoordinatorLeavesDone(c: Config, s: State)
    requires WellFormed(c, s) && CoordinatorEnabled(s)
    ensures CoordinatorNext(c, s).work.done == s.work.done
    ensures CoordinatorNext(c, s).work.slots == s.work.slots
  {
  }

  lemma CoordinatorKeepsDone(c: Config, s: State)
    requires WellFormed(c, s) && Conserved(s) && LeadInv(c, s.shared, s.lead) && DoneInv(s) && CoordinatorEnabled(s)
    requires LeadInv(c, CoordinatorNext(c, s).shared, CoordinatorNext(c, s).lead)
    ensures DoneInv(CoordinatorNext(c, s))
  {
    if s.lead.at.PushWindow? {
      PushWindowKeepsDone(c, s);
    } else {
      var m := CoordinatorNextMoves(c, s);
      CoordinatorLeavesDone(c, s);
      MovedKeepsDone(s, CoordinatorNext(c, s), m);
    }
  }

  // ---------------------------------------------------------------- slots

  /** In-flight ordinals never collide in the slot table. */
  lemma SlotsDistinct(j: nat, k: nat, size: nat)
    requires j < k < j + size
    ensures j % size != k % size
  {
    var q := k / size - j / size;
    assert k - j == q * size + (k % size - j % size);
    if q >= 1 {
      assert q * size >= size;
    } else {
      assert q * size <= 0;
    }
  }

  /** Every completed, uncommitted ordinal still has its own data in its slot. */
  ghost predicate SlotInv(c: Config, s: State)
    requires WellFormed(c, s)
  {
    forall k :: s.lead.nextToCommit <= k < s.lead.nextToQueue && s.work.done[k] && c.outcomes[k].Good? ==>
      s.work.slots[k % c.maxInFlight] == Filled(c.outcomes[k].value)
  }

  lemma WorkerKeepsSlots(c: Config, s: State, i: nat)
    requires WellFormed(c, s) && Conserved(s) && LeadInv(c, s.shared, s.lead) && DoneInv(s) && SlotInv(c, s)
    requires i < |s.workers| && WorkerEnabled(s.shared, s.workers[i])
    requires WellFormed(c, WorkerNext(c, s, i))
    ensures SlotInv(c, WorkerNext(c, s, i))
  {
    var w, s' := s.workers[i], WorkerNext(c, s, i);
    if w.Taken? || w.Running? {
      CarriedInFlight(s, i);
      assert WorkerDoneInv(s.work.done, w);
      forall k | s.lead.nextToCommit <= k < s.lead.nextToQueue && k != w.ordinal
        ensures k % c.maxInFlight != w.ordinal % c.maxInFlight
      {
        if k < w.ordinal {
          SlotsDistinct(k, w.ordinal, c.maxInFlight);
        } else {
          SlotsDistinct(w.ordinal, k, c.maxInFlight);
        }
      }
    }
  }

  // ---------------------------------------------------------------- counters

  /** Completed, uncommitted ordinals from `k` on. */
  function PendingCount(done: seq<bool>, k: nat): nat
    requires k <= |done|
    decreases |done| - k
  {
    if k == |done| then 0 else (if done[k] then 1 else 0) + PendingCount(done, k + 1)
  }

  /** Their decoded rows. */
  function PendingRows(c: Config, done: seq<bool>, k: nat): nat
    requires k <= |done| == |c.outcomes| == |c.rowCounts|
    decreases |done| - k
  {
    if k == |done| then 0 else (if done[k] then DecodedRows(c, k) else 0) + PendingRows(c, done, k + 1)
  }

  function RowTotal(rows: seq<nat>): nat {
    if rows == [] then 0 else rows[0] + RowTotal(rows[1..])
  }

  /** The counters cannot overflow for this plan: its rows fit in a `u64`. */
  ghost predicate CountersFit(c: Config) {
    c.taskCount < U64_LIMIT && RowTotal(c.rowCounts) < U64_LIMIT
  }

  lemma {:induction false} PendingRowsBound(c: Config, done: seq<bool>, k: nat)
    requires k <= |done| == |c.outcomes| == |c.rowCounts|
    ensures PendingRows(c, done, k) <= RowTotal(c.rowCounts[k..])
    decreases |done| - k
  {
    if k < |done| {
      PendingRowsBound(c, done, k + 1);
      assert c.rowCounts[k..][1..] == c.rowCounts[k + 1..];
    }
  }

  lemma {:induction false} SuffixTotal(rows: seq<nat>, k: nat)
    requires k <= |rows|
    ensures RowTotal(rows[k..]) <= RowTotal(rows)
  {
    if k > 0 {
      assert rows[1..][k - 1..] == rows[k..];
      SuffixTotal(rows[1..], k - 1);
    } else {
      assert rows[0..] == rows;
    }
  }

  lemma {:induction false} PendingAfter(c: Config, done: seq<bool>, k: nat, x: nat)
    requires k <= x < |done| == |c.outcomes| == |c.rowCounts| && !done[x]
    ensures PendingCount(done[x := true], k) == PendingCount(done, k) + 1
    ensures PendingRows(c, done[x := true], k) == PendingRows(c, done, k) + DecodedRows(c, x)
    decreases |done| - k
  {
    if k == x {
      PendingSame(c, done, k + 1, x);
    } else {
      PendingAfter(c, done, k + 1, x);
    }
  }

  lemma {:induction false} PendingSame(c: Config, done: seq<bool>, k: nat, x: nat)
    requires x < k <= |done| == |c.outcomes| == |c.rowCounts|
    ensures PendingCount(done[x := true], k) == PendingCount(done, k)
    ensures PendingRows(c, done[x := true], k) == PendingRows(c, done, k)
    decreases |done| - k
  {
    if k < |done| {
      PendingSame(c, done, k + 1, x);
    }
  }

  /** Only launched ordinals are counted. */
  lemma {:induction false} PendingCountBound(done: seq<bool>, k: nat, end: nat)
    requires k <= end <= |done|
    requires forall j :: end <= j < |done| ==> !done[j]
    ensures PendingCount(done, k) <= end - k
    decreases |done| - k
  {
    if k < end {
      PendingCountBound(done, k + 1, end);
    } else {
      PendingNone(done, k);
    }
  }

  lemma {:induction false} PendingNone(done: seq<bool>, k: nat)
    requires k <= |done| && forall j :: k <= j < |done| ==> !done[j]
    ensures PendingCount(done, k) == 0
    decreases |done| - k
  {
    if k < |done| {
      PendingNone(done, k + 1);
    }
  }

  /** The atomic counters hold the true values: no wrap, no underflow, and within the cap. */
  ghost predicate CounterInv(c: Config, s: State)
    requires WellFormed(c, s)
  {
    Holds(s.work.observations, PendingCount(s.work.done, s.lead.nextToCommit),
          PendingRows(c, s.work.done, s.lead.nextToCommit), c.maxInFlight, RowTotal(c.rowCounts))
  }

  /** Counters with these pending results and rows, and peaks within the bounds. */
  ghost predicate Holds(o: Observations, results: nat, rows: nat, cap: nat, total: nat) {
    && o.pendingResults == results <= o.maxPendingResults <= cap
    && o.pendingRows == rows <= o.maxPendingRows <= total
  }

  lemma CompletedHolds(o: Observations, results: nat, rows: nat, cap: nat, total: nat, n: nat)
    requires Holds(o, results, rows, cap, total)
    requires results + 1 <= cap && results + 1 < U64_LIMIT && rows + n <= total < U64_LIMIT
    ensures Holds(ResultCompleted(o, n), results + 1, rows + n, cap, total)
  {
  }

  lemma CommittedHolds(o: Observations, results: nat, rows: nat, cap: nat, total: nat, n: nat)
    requires Holds(o, results, rows, cap, total)
    requires 1 <= results < U64_LIMIT && n <= rows && total < U64_LIMIT
    ensures Holds(ResultCommitted(o, n), results - 1, rows - n, cap, total)
  {
  }

  lemma WorkerKeepsCounters(c: Config, s: State, i: nat)
    requires WellFormed(c, s) && Conserved(s) && LeadInv(c, s.shared, s.lead) && DoneInv(s) && CounterInv(c, s)
    requires CountersFit(c)
    requires i < |s.workers| && WorkerEnabled(s.shared, s.workers[i])
    requires WellFormed(c, WorkerNext(c, s, i)) && DoneInv(WorkerNext(c, s, i))
    ensures CounterInv(c, WorkerNext(c, s, i))
  {
    if s.workers[i].Running? {
      FinishedWorkCounted(c, s, i);
    } else {
      assert WorkerNext(c, s, i).work.observations == s.work.observations;
    }
  }

  lemma FinishedWorkCounted(c: Config, s: State, i: nat)
    requires WellFormed(c, s) && Conserved(s) && LeadInv(c, s.shared, s.lead) && DoneInv(s) && CounterInv(c, s)
    requires CountersFit(c) && i < |s.workers| && s.workers[i].Running?
    requires WellFormed(c, WorkerNext(c, s, i)) && DoneInv(WorkerNext(c, s, i))
    ensures CounterInv(c, WorkerNext(c, s, i))
  {
    var w, s' := s.workers[i], WorkerNext(c, s, i);
    CarriedInFlight(s, i);
    assert WorkerDoneInv(s.work.done, w);
    var k := s.lead.nextToCommit;
    PendingAfter(c, s.work.done, k, w.ordinal);
    PendingCountBound(s'.work.done, k, s.lead.nextToQueue);
    PendingRowsBound(c, s'.work.done, k);
    SuffixTotal(c.rowCounts, k);
    CompletedHolds(s.work.observations, PendingCount(s.work.done, k), PendingRows(c, s.work.done, k),
                   c.maxInFlight, RowTotal(c.rowCounts), DecodedRows(c, w.ordinal));
  }

  lemma CommitKeepsCounters(c: Config, s: State)
    requires WellFormed(c, s) && DoneInv(s) && CounterInv(c, s) && CountersFit(c)
    requires s.lead.nextToCommit < s.lead.nextToQueue && s.lead.nextToCommit in s.lead.pending
    requires !Fails(c, s.lead.nextToCommit)
    requires WellFormed(c, CommitNext(c, s))
    ensures CounterInv(c, CommitNext(c, s))
  {
    var k := s.lead.nextToCommit;
    PendingRowsBound(c, s.work.done, k);
    SuffixTotal(c.rowCounts, k);
    PendingCountBound(s.work.done, k, s.lead.nextToQueue);
    CommittedHolds(s.work.observations, PendingCount(s.work.done, k), PendingRows(c, s.work.done, k),
                   c.maxInFlight, RowTotal(c.rowCounts), c.rowCounts[k]);
  }

  lemma CoordinatorKeepsSlots(c: Config, s: State)
    requires WellFormed(c, s) && DoneInv(s) && SlotInv(c, s) && CoordinatorEnabled(s)
    requires WellFormed(c, CoordinatorNext(c, s))
    ensures SlotInv(c, CoordinatorNext(c, s))
  {
    CoordinatorLeavesDone(c, s);
    assert s.lead.nextToCommit <= CoordinatorNext(c, s).lead.nextToCommit;
  }

  /** Only a commit touches the counters or moves the frontier. */
  lemma CoordinatorCommitsOrNot(c: Config, s: State)
    requires WellFormed(c, s) && CoordinatorEnabled(s)
    ensures var s' := CoordinatorNext(c, s);
            || (s'.work == s.work && s'.lead.nextToCommit == s.lead.nextToCommit)
            || (s.lead.nextToCommit < c.taskCount && s.lead.nextToCommit in s.lead.pending
                && !Fails(c, s.lead.nextToCommit) && s' == CommitNext(c, s))
  {
  }

  lemma CoordinatorKeepsCounters(c: Config, s: State)
    requires WellFormed(c, s) && Conserved(s) && DoneInv(s) && CounterInv(c, s) && CountersFit(c)
    requires CoordinatorEnabled(s) && WellFormed(c, CoordinatorNext(c, s))
    ensures CounterInv(c, CoordinatorNext(c, s))
  {
    CoordinatorCommitsOrNot(c, s);
    if CoordinatorNext(c, s).lead.nextToCommit != s.lead.nextToCommit {
      InFlightRange(s, s.lead.nextToCommit);
      CommitKeepsCounters(c, s);
    }
  }

  // ---------------------------------------------------------------- report

  /** Rows of the first `k` row groups, accumulated with saturation. */
  function SaturatedRows(rows: seq<nat>, k: nat): nat
    requires k <= |rows|
  {
    if k == 0 then 0 else SaturatingAdd64(SaturatedRows(rows, k - 1), rows[k - 1])
  }

  ghost predicate ReportInv(c: Config, d: Lead)
    requires d.nextToCommit <= |c.rowCounts|
  {
    && d.report.committed == Min(d.nextToCommit, U64_LIMIT - 1)
    && d.report.rowsCommitted == SaturatedRows(c.rowCounts, d.nextToCommit)
    && d.report.maxInFlightSeen <= c.maxInFlight
    && (d.nextToQueue > 0 ==> d.report.maxInFlightSeen >= 1)
  }

  lemma CommitKeepsReport(c: Config, s: State)
    requires WellFormed(c, s) && ReportInv(c, s.lead) && Committing(s.lead.at)
    requires WellFormed(c, CommitPhase(c, s))
    ensures ReportInv(c, CommitPhase(c, s).lead)
  {
  }

  lemma QueueKeepsReport(c: Config, s: State)
    requires WellFormed(c, s) && LeadInv(c, s.shared, s.lead) && ReportInv(c, s.lead) && CoordinatorEnabled(s)
    requires !Finishing(s.lead.at) && !Committing(s.lead.at) && !Windowing(s.lead.at)
    requires WellFormed(c, QueuePhase(c, s))
    ensures ReportInv(c, QueuePhase(c, s).lead)
  {
  }

  lemma CoordinatorKeepsReport(c: Config, s: State)
    requires WellFormed(c, s) && LeadInv(c, s.shared, s.lead) && ReportInv(c, s.lead) && CoordinatorEnabled(s)
    requires WellFormed(c, CoordinatorNext(c, s))
    ensures ReportInv(c, CoordinatorNext(c, s).lead)
  {
    if Committing(s.lead.at) {
      CommitKeepsReport(c, s);
    } else if !Finishing(s.lead.at) && !Windowing(s.lead.at) {
      QueueKeepsReport(c, s);
    }
  }

  /** One callback invocation per committed ordinal, plus the refused one. */
  ghost predicate CallsInv(d: Lead) {
    |d.calls| == d.nextToCommit +
      if Finishing(d.at) && d.at.verdict.Failed? && d.at.verdict.error.CommitError? then 1 else 0
  }

  lemma CommitKeepsCalls(c: Config, s: State)
    requires WellFormed(c, s) && CallsInv(s.lead) && Committing(s.lead.at)
    ensures CallsInv(CommitPhase(c, s).lead)
  {
  }

  lemma CoordinatorKeepsCalls(c: Config, s: State)
    requires WellFormed(c, s) && CallsInv(s.lead) && CoordinatorEnabled(s)
    ensures CallsInv(CoordinatorNext(c, s).lead)
  {
    if Committing(s.lead.at) {
      CommitKeepsCalls(c, s);
    }
  }
}
