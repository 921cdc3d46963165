/**
 What the reports say about whole runs: the peaks are the largest values the run went
 through, and the counts of rows are sums over the plan.
 */
module SchedulerReport {
  import opened Basics
  import opened TaskQueues
  import opened Scheduler
  import opened SchedulerSpec
  import opened SchedulerLead
  import opened SchedulerWork
  import opened SchedulerTheorems

  // ---------------------------------------------------------------- ordinals in flight

  /** Ordinals queued since the commit frontier, or since the start of the window. */
  function InFlight(c: Config, d: Lead): int {
    d.nextToQueue - if c.windowed then d.windowStart else d.nextToCommit
  }

  /** The report covers what is in flight now. */
  ghost predicate Covered(c: Config, d: Lead) { InFlight(c, d) <= d.report.maxInFlightSeen }

  /** What one step does to the report: it is raised to what is in flight afterwards. */
  ghost predicate Raised(c: Config, d: Lead, e: Lead) {
    e.report.maxInFlightSeen == if InFlight(c, e) > d.report.maxInFlightSeen then InFlight(c, e) else d.report.maxInFlightSeen
  }

  lemma CommitRaises(c: Config, s: State)
    requires WellFormed(c, s) && LeadInv(c, s.shared, s.lead) && Committing(s.lead.at) && Covered(c, s.lead)
    ensures Raised(c, s.lead, CommitPhase(c, s).lead)
  {
  }

  lemma WindowRaises(c: Config, s: State)
    requires WellFormed(c, s) && LeadInv(c, s.shared, s.lead) && Windowing(s.lead.at) && Covered(c, s.lead)
    ensures Raised(c, s.lead, WindowPhase(c, s).lead)
  {
  }

  lemma QueueRaises(c: Config, s: State)
    requires WellFormed(c, s) && LeadInv(c, s.shared, s.lead) && CoordinatorEnabled(s) && Covered(c, s.lead)
    requires !Finishing(s.lead.at) && !Committing(s.lead.at) && !Windowing(s.lead.at)
    ensures Raised(c, s.lead, QueuePhase(c, s).lead)
  {
  }

  lemma StepRaises(c: Config, s: State, t: Thread)
    requires Inv(c, s) && Enabled(c, s, t) && Covered(c, s.lead)
    ensures Raised(c, s.lead, Next(c, s, t).lead)
  {
    if t.TheCoordinator? {
      if Committing(s.lead.at) {
        CommitRaises(c, s);
      } else if Windowing(s.lead.at) {
        WindowRaises(c, s);
      } else if !Finishing(s.lead.at) {
        QueueRaises(c, s);
      }
    }
  }

  /** The largest of the values the run went through. */
  ghost predicate Largest(c: Config, ss: seq<State>, peak: nat) {
    && (forall j :: 0 <= j < |ss| ==> InFlight(c, ss[j].lead) <= peak)
    && exists j :: 0 <= j < |ss| && InFlight(c, ss[j].lead) == peak
  }

  /** In every run, complete or not, the report holds the largest in-flight count so far. */
  lemma {:induction false} PeakReported(c: Config, ss: seq<State>, ts: seq<Thread>)
    requires ValidConfig(c) && IsRun(c, ss, ts)
    ensures Largest(c, ss, ss[|ss| - 1].lead.report.maxInFlightSeen)
    decreases |ts|
  {
    if ts == [] {
      assert InFlight(c, ss[0].lead) == 0;
    } else {
      var n := |ts| - 1;
      PrefixRun(c, ss, ts, n);
      PeakReported(c, ss[..n + 1], ts[..n]);
      StateInv(c, ss, ts, n);
      assert ss[..n + 1][n] == ss[n];
      StepRaises(c, ss[n], ts[n]);
      LargestExtends(c, ss[..n + 1], ss[n].lead.report.maxInFlightSeen, ss[n + 1]);
      assert ss == ss[..n + 1] + [ss[n + 1]];
    }
  }

  lemma LargestExtends(c: Config, ss: seq<State>, peak: nat, s: State)
    requires Largest(c, ss, peak)
    ensures Largest(c, ss + [s], if InFlight(c, s.lead) > peak then InFlight(c, s.lead) else peak)
  {
    var j :| 0 <= j < |ss| && InFlight(c, ss[j].lead) == peak;
    assert (ss + [s])[j] == ss[j];
    assert (ss + [s])[|ss|] == s;
  }

  // ---------------------------------------------------------------- pending results and rows

  function SeenResults(ss: seq<State>): seq<nat> {
    seq(|ss|, j requires 0 <= j < |ss| => ss[j].work.observations.pendingResults)
  }

  function SeenRows(ss: seq<State>): seq<nat> {
    seq(|ss|, j requires 0 <= j < |ss| => ss[j].work.observations.pendingRows)
  }

  /** The counters and peaks of `p` follow those of `o`. */
  ghost predicate Observed(o: Observations, p: Observations) {
    && p.maxPendingResults == Max(o.maxPendingResults, p.pendingResults)
    && p.maxPendingRows == Max(o.maxPendingRows, p.pendingRows)
  }

  lemma CoordinatorObserves(c: Config, s: State)
    requires Inv(c, s) && CoordinatorEnabled(s) && CountersFit(c)
    ensures CoordinatorNext(c, s).work.observations == s.work.observations
            || exists rows :: CoordinatorNext(c, s).work.observations == ResultCommitted(s.work.observations, rows)
  {
  }

  lemma WorkerObserves(c: Config, s: State, i: nat)
    requires WellFormed(c, s) && i < |s.workers| && WorkerEnabled(s.shared, s.workers[i])
    ensures WorkerNext(c, s, i).work.observations == s.work.observations
            || exists rows :: WorkerNext(c, s, i).work.observations == ResultCompleted(s.work.observations, rows)
  {
  }

  lemma StepObserves(c: Config, s: State, t: Thread)
    requires Inv(c, s) && Enabled(c, s, t) && CountersFit(c)
    ensures Observed(s.work.observations, Next(c, s, t).work.observations)
  {
    StepKeepsInv(c, s, t);
    if t.TheCoordinator? {
      CoordinatorObserves(c, s);
    } else {
      WorkerObserves(c, s, t.id);
    }
  }

  /** The pending peaks are the largest pending values the run went through. */
  lemma {:induction false} PendingPeaks(c: Config, ss: seq<State>, ts: seq<Thread>)
    requires ValidConfig(c) && IsRun(c, ss, ts) && CountersFit(c)
    ensures var o := ss[|ss| - 1].work.observations;
            IsPeak(o.maxPendingResults, SeenResults(ss)) && IsPeak(o.maxPendingRows, SeenRows(ss))
    decreases |ts|
  {
    if ts != [] {
      var n := |ts| - 1;
      var front, last := ss[..n + 1], ss[n + 1];
      PrefixRun(c, ss, ts, n);
      PendingPeaks(c, front, ts[..n]);
      StateInv(c, ss, ts, n);
      assert front[n] == ss[n];
      StepObserves(c, ss[n], ts[n]);
      var o := ss[n].work.observations;
      PeakExtends(o.maxPendingResults, SeenResults(front), last.work.observations.pendingResults);
      PeakExtends(o.maxPendingRows, SeenRows(front), last.work.observations.pendingRows);
      assert SeenResults(ss) == SeenResults(front) + [last.work.observations.pendingResults];
      assert SeenRows(ss) == SeenRows(front) + [last.work.observations.pendingRows];
    }
  }

  /** Per ordinal from `k` on, the rows decoded and not yet committed; a failed read decodes none. */
  function Kept(c: Config, done: seq<bool>, k: nat): (rows: seq<nat>)
    requires k <= |done| == |c.outcomes| == |c.rowCounts|
    ensures |rows| == |done| - k
  {
    seq(|done| - k, i requires 0 <= i < |done| - k =>
      if done[k + i] && !c.outcomes[k + i].ReadFailed? then c.rowCounts[k + i] else 0)
  }

  lemma {:induction false} PendingRowsAreKept(c: Config, done: seq<bool>, k: nat)
    requires k <= |done| == |c.outcomes| == |c.rowCounts|
    ensures PendingRows(c, done, k) == RowTotal(Kept(c, done, k))
    decreases |done| - k
  {
    if k < |done| {
      PendingRowsAreKept(c, done, k + 1);
      assert Kept(c, done, k)[1..] == Kept(c, done, k + 1);
    }
  }

  /** In every state the pending rows are those of finished, uncommitted row groups whose read succeeded. */
  lemma PendingRowsExact(c: Config, ss: seq<State>, ts: seq<Thread>, j: nat)
    requires ValidConfig(c) && IsRun(c, ss, ts) && j < |ss| && CountersFit(c)
    ensures var s := ss[j];
            && s.lead.nextToCommit <= |s.work.done| == c.taskCount
            && s.work.observations.pendingRows == RowTotal(Kept(c, s.work.done, s.lead.nextToCommit))
  {
    CountersExact(c, ss, ts, j);
    PendingRowsAreKept(c, ss[j].work.done, ss[j].lead.nextToCommit);
  }

  // ---------------------------------------------------------------- committed rows

  lemma {:induction false} RowTotalSnoc(rows: seq<nat>, n: nat)
    ensures RowTotal(rows + [n]) == RowTotal(rows) + n
  {
    if rows == [] {
      assert rows + [n] == [n];
    } else {
      RowTotalSnoc(rows[1..], n);
      assert (rows + [n])[1..] == rows[1..] + [n];
    }
  }

  lemma {:induction false} SaturatedIsCapped(rows: seq<nat>, k: nat)
    requires k <= |rows|
    ensures SaturatedRows(rows, k) == Min(RowTotal(rows[..k]), U64_LIMIT - 1)
  {
    if k > 0 {
      SaturatedIsCapped(rows, k - 1);
      RowTotalSnoc(rows[..k - 1], rows[k - 1]);
      assert rows[..k] == rows[..k - 1] + [rows[k - 1]];
    }
  }

  /** The reported row count is that of the committed row groups, capped at the largest 64-bit number. */
  lemma RowsReported(c: Config, ss: seq<State>, ts: seq<Thread>, j: nat)
    requires ValidConfig(c) && IsRun(c, ss, ts) && j < |ss|
    ensures var d := ss[j].lead;
            d.nextToCommit <= |c.rowCounts| && d.report.rowsCommitted == Min(RowTotal(c.rowCounts[..d.nextToCommit]), U64_LIMIT - 1)
  {
    RunInv(c, ss, ts);
    SaturatedIsCapped(c.rowCounts, ss[j].lead.nextToCommit);
  }
}
