/**
 Termination: every step of every thread lowers one measure.  Work that moves
 forward gives up a unit; a retry after a wait is paid for by the notification
 that woke it, and each notification by the unit its sender gave up.
 */
module SchedulerProgress {
  import opened Basics
  import opened TaskQueues
  import opened Scheduler
  import opened SchedulerFlow
  import opened SchedulerLead
  import opened SchedulerSignal

  // ---------------------------------------------------------------- units of work

  function WorkerUnits(w: Worker): nat {
    match w
    case Idle => 0
    case Popped(_) => 11
    case Taken(_) => 10
    case Running(_) => 9
    case Sent => 1
    case Exited(_) => 0
    case _ => 8
  }

  function UnitSum(ws: seq<Worker>): nat {
    if ws == [] then 0 else UnitSum(ws[..|ws| - 1]) + WorkerUnits(ws[|ws| - 1])
  }

  function LeadUnits(c: Config, d: Lead): nat {
    match d.at
    case Stopping(_) => 5
    case Closing(_) => 4
    case Signalling(_) => 3
    case Dropping(_) => 2
    case Joining(_) => 1
    case Done(_) => 0
    case CloseQueue => 8
    case CloseSignal => 7
    case Got(_) => 6 + 5 + if c.windowed && d.nextToQueue < WindowEnd(c, d) then 3 else 0
    case Frontier => 6
    case Receive => 6
    case Collect => 6
    case CommitWindow => 6
    case _ => if c.windowed then 9 else 6
  }

  function Units(c: Config, s: State): nat
    requires s.lead.nextToQueue <= c.taskCount && s.lead.windowStart <= c.taskCount
  {
    15 * (c.taskCount - s.lead.nextToQueue) + 4 * (c.taskCount - s.lead.windowStart)
    + 12 * |s.shared.queue.tasks| + UnitSum(s.workers) + 6 * |s.shared.results|
    + 4 * |s.lead.pending| + LeadUnits(c, s.lead)
  }

  // ---------------------------------------------------------------- ranks within a unit

  /** A stale or missing snapshot still owes a retry. */
  function Debt(generation: nat, snap: Snapshot): nat {
    match snap
    case None => 10
    case Some(g) => if g < generation then 10 else 0
  }

  /** Until notifications are on, the next snapshot will be missing. */
  function Owing(on: bool): nat { if on then 0 else 10 }

  function WorkerRank(on: bool, generation: nat, w: Worker): nat {
    match w
    case Idle => 1
    case Ready(_) => 6 + Owing(on)
    case Checked(_) => 5 + Owing(on)
    case Snapped(_, snap) => 4 + Debt(generation, snap)
    case Blocked(_, snap) => 3 + Debt(generation, snap)
    case _ => 0
  }

  function RankSum(on: bool, generation: nat, ws: seq<Worker>): nat {
    if ws == [] then 0 else RankSum(on, generation, ws[..|ws| - 1]) + WorkerRank(on, generation, ws[|ws| - 1])
  }

  function LeadRank(on: bool, generation: nat, p: Coordinator): nat {
    match p
    case WindowHead => 8 + Owing(on)
    case PushWindow => 7 + Owing(on)
    case Frontier => 6 + Owing(on)
    case Fill => 6 + Owing(on)
    case Push(snap) => 5 + Debt(generation, snap)
    case Full(snap) => 4 + Debt(generation, snap)
    case Wait(snap) => 3 + Debt(generation, snap)
    case Collect => 3
    case CommitWindow => 2
    case Receive => 1
    case _ => 0
  }

  function Rank(s: State): nat {
    LeadRank(s.shared.notifyOn, s.shared.generation, s.lead.at)
    + RankSum(s.shared.notifyOn, s.shared.generation, s.workers)
  }

  /** What one unit is worth: enough for every thread to owe one more retry. */
  function UnitValue(workers: nat): nat { 10 * workers + 40 }

  function Measure(c: Config, s: State): nat
    requires s.lead.nextToQueue <= c.taskCount && s.lead.windowStart <= c.taskCount
  {
    UnitValue(|s.workers|) * Units(c, s) + Rank(s)
  }

  lemma {:induction false} SumUpdates(on: bool, g: nat, ws: seq<Worker>, i: nat, w: Worker)
    requires i < |ws|
    ensures UnitSum(ws[i := w]) + WorkerUnits(ws[i]) == UnitSum(ws) + WorkerUnits(w)
    ensures RankSum(on, g, ws[i := w]) + WorkerRank(on, g, ws[i]) == RankSum(on, g, ws) + WorkerRank(on, g, w)
  {
    var n := |ws| - 1;
    if i == n {
      assert ws[i := w][..n] == ws[..n];
    } else {
      assert ws[i := w][..n] == ws[..n][i := w];
      SumUpdates(on, g, ws[..n], i, w);
    }
  }

  /** A notification makes each waiter owe at most one retry; switching notifications on only helps. */
  lemma {:induction false} RankSumShift(on: bool, g: nat, on': bool, g': nat, ws: seq<Worker>)
    requires on ==> on'
    ensures RankSum(on', g', ws) <= RankSum(on, g, ws) + 10 * |ws|
    ensures g' == g ==> RankSum(on', g', ws) <= RankSum(on, g, ws)
  {
    if ws != [] {
      RankSumShift(on, g, on', g', ws[..|ws| - 1]);
    }
  }

  /** Giving up a unit pays for any change of rank a step can cause. */
  lemma {:induction false} Pays(value: nat, units: nat, units': nat, rank: nat, rank': nat)
    requires units' < units && rank' < rank + value
    ensures value * units' + rank' < value * units + rank
    decreases units
  {
    var less := units - 1;
    assert value * units == value * less + value;
    if units' < less {
      Pays(value, less, units', rank, rank');
    }
  }

  // ---------------------------------------------------------------- workers

  /** A worker step either gives up a unit, or keeps units and lowers its own rank. */
  lemma WorkerPays(c: Config, h: Shared, p: Coordinator, w: Worker)
    requires WorkerEnabled(h, w) && WorkerSignalInv(c, h, p, w)
    ensures var (h', w') := WorkerStep(c, h, w);
            var cost := 12 * |h.queue.tasks| + WorkerUnits(w) + 6 * |h.results|;
            var cost' := 12 * |h'.queue.tasks| + WorkerUnits(w') + 6 * |h'.results|;
            && (h.notifyOn ==> h'.notifyOn)
            && WorkerRank(h'.notifyOn, h'.generation, w') <= WorkerRank(h.notifyOn, h.generation, w) + 16
            && (|| cost' < cost
                || (cost' == cost && h'.generation == h.generation
                    && WorkerRank(h'.notifyOn, h.generation, w') < WorkerRank(h.notifyOn, h.generation, w)))
  {
  }

  lemma LeadRankShift(on: bool, g: nat, on': bool, g': nat, p: Coordinator)
    requires on ==> on'
    ensures LeadRank(on', g', p) <= LeadRank(on, g, p) + 10
    ensures g' == g ==> LeadRank(on', g', p) <= LeadRank(on, g, p)
  {
  }

  lemma WorkerDescends(c: Config, s: State, i: nat)
    requires WellFormed(c, s) && SignalInv(c, s)
    requires i < |s.workers| && WorkerEnabled(s.shared, s.workers[i])
    ensures Measure(c, WorkerNext(c, s, i)) < Measure(c, s)
  {
    var h, w := s.shared, s.workers[i];
    var (h', w') := WorkerStep(c, h, w);
    var s' := WorkerNext(c, s, i);
    WorkerPays(c, h, s.lead.at, w);
    LeadRankShift(h.notifyOn, h.generation, h'.notifyOn, h'.generation, s.lead.at);
    RankSumShift(h.notifyOn, h.generation, h'.notifyOn, h'.generation, s.workers);
    SumUpdates(h.notifyOn, h.generation, s.workers, i, w');
    RankSumShift(h.notifyOn, h.generation, h'.notifyOn, h'.generation, s.workers[i := w']);
    if Units(c, s') < Units(c, s) {
      Pays(UnitValue(|s.workers|), Units(c, s), Units(c, s'), Rank(s), Rank(s'));
    } else {
      WorkerRankDrops(c, s, i);
    }
  }

  lemma WorkerRankDrops(c: Config, s: State, i: nat)
    requires WellFormed(c, s) && SignalInv(c, s)
    requires i < |s.workers| && WorkerEnabled(s.shared, s.workers[i])
    requires Units(c, WorkerNext(c, s, i)) >= Units(c, s)
    ensures Units(c, WorkerNext(c, s, i)) == Units(c, s) && Rank(WorkerNext(c, s, i)) < Rank(s)
  {
    var h, w := s.shared, s.workers[i];
    var (h', w') := WorkerStep(c, h, w);
    WorkerPays(c, h, s.lead.at, w);
    LeadRankShift(h.notifyOn, h.generation, h'.notifyOn, h'.generation, s.lead.at);
    SumUpdates(h'.notifyOn, h.generation, s.workers, i, w');
    RankSumShift(h.notifyOn, h.generation, h'.notifyOn, h'.generation, s.workers);
    assert s.workers[i := w'][i := w] == s.workers;
  }

  // ---------------------------------------------------------------- coordinator

  /** Steps that give up a unit. */
  ghost predicate GivesUp(c: Config, s: State, s': State)
    requires s.lead.nextToQueue <= c.taskCount && s.lead.windowStart <= c.taskCount
    requires s'.lead.nextToQueue <= c.taskCount && s'.lead.windowStart <= c.taskCount
  {
    && s'.workers == s.workers
    && (s.shared.notifyOn ==> s'.shared.notifyOn)
    && Units(c, s') < Units(c, s)
    && LeadRank(s'.shared.notifyOn, s'.shared.generation, s'.lead.at) < 30
  }

  /** Steps that only lower the coordinator's rank. */
  ghost predicate StepsDown(c: Config, s: State, s': State)
    requires s.lead.nextToQueue <= c.taskCount && s.lead.windowStart <= c.taskCount
    requires s'.lead.nextToQueue <= c.taskCount && s'.lead.windowStart <= c.taskCount
  {
    && s'.workers == s.workers
    && (s.shared.notifyOn ==> s'.shared.notifyOn)
    && s'.shared.generation == s.shared.generation
    && Units(c, s') == Units(c, s)
    && LeadRank(s'.shared.notifyOn, s.shared.generation, s'.lead.at)
       < LeadRank(s.shared.notifyOn, s.shared.generation, s.lead.at)
  }

  ghost predicate Descends(c: Config, s: State, s': State)
    requires s.lead.nextToQueue <= c.taskCount && s.lead.windowStart <= c.taskCount
    requires s'.lead.nextToQueue <= c.taskCount && s'.lead.windowStart <= c.taskCount
  {
    GivesUp(c, s, s') || StepsDown(c, s, s')
  }

  lemma DescendsLowers(c: Config, s: State, s': State)
    requires s.lead.nextToQueue <= c.taskCount && s.lead.windowStart <= c.taskCount
    requires s'.lead.nextToQueue <= c.taskCount && s'.lead.windowStart <= c.taskCount
    requires Descends(c, s, s')
    ensures Measure(c, s') < Measure(c, s)
  {
    RankSumShift(s.shared.notifyOn, s.shared.generation, s'.shared.notifyOn, s'.shared.generation, s.workers);
    if GivesUp(c, s, s') {
      Pays(UnitValue(|s.workers|), Units(c, s), Units(c, s'), Rank(s), Rank(s'));
    }
  }

  lemma CommitDescends(c: Config, s: State)
    requires WellFormed(c, s) && (s.lead.at.Frontier? || s.lead.at.CommitWindow?)
    requires s.lead.nextToCommit < c.taskCount && s.lead.nextToCommit in s.lead.pending
    ensures s.lead.nextToCommit < s.lead.nextToQueue ==> GivesUp(c, s, CommitNext(c, s))
  {
  }

  lemma RejectDescends(c: Config, s: State, k: nat)
    requires WellFormed(c, s) && Committing(s.lead.at) && k < c.taskCount && Fails(c, k) && k in s.lead.pending
    ensures GivesUp(c, s, RejectNext(c, s, k))
  {
  }

  lemma FrontierDescends(c: Config, s: State)
    requires WellFormed(c, s) && Conserved(s) && s.lead.at.Frontier? && WellFormed(c, FrontierNext(c, s))
    requires LeadInv(c, s.shared, s.lead)
    ensures Descends(c, s, FrontierNext(c, s))
  {
    var k := s.lead.nextToCommit;
    if k < c.taskCount && k in s.lead.pending {
      InFlightRange(s, k);
      CommitDescends(c, s);
      if Fails(c, k) {
        RejectDescends(c, s, k);
      }
    }
  }

  lemma CollectDescends(c: Config, s: State)
    requires WellFormed(c, s) && LeadInv(c, s.shared, s.lead) && s.lead.at.Collect?
    ensures Descends(c, s, CollectNext(c, s))
  {
    var k := FirstFailure(c, s.lead.pending, s.lead.windowStart, WindowEnd(c, s.lead));
    if k < WindowEnd(c, s.lead) {
      RejectDescends(c, s, k);
    }
  }

  lemma CommitWindowDescends(c: Config, s: State)
    requires WellFormed(c, s) && LeadInv(c, s.shared, s.lead) && s.lead.at.CommitWindow?
    requires WellFormed(c, CommitWindowNext(c, s))
    ensures Descends(c, s, CommitWindowNext(c, s))
  {
    if s.lead.nextToCommit < WindowEnd(c, s.lead) {
      CommitDescends(c, s);
    }
  }

  /** Leaving a stage of the shutdown, with the queues as long as before. */
  lemma StageEnds(c: Config, s: State, s': State)
    requires s.lead.nextToQueue <= c.taskCount && s.lead.windowStart <= c.taskCount
    requires s'.workers == s.workers && s'.lead == s.lead.(at := s'.lead.at) && s'.shared.notifyOn == s.shared.notifyOn
    requires |s'.shared.queue.tasks| == |s.shared.queue.tasks| && |s'.shared.results| == |s.shared.results|
    requires LeadUnits(c, s'.lead) < LeadUnits(c, s.lead) && Finishing(s'.lead.at)
    ensures GivesUp(c, s, s')
  {
  }

  lemma FinishPhaseDescends(c: Config, s: State)
    requires WellFormed(c, s) && Finishing(s.lead.at) && CoordinatorEnabled(s)
    ensures GivesUp(c, s, FinishPhase(s))
  {
    StageEnds(c, s, FinishPhase(s));
  }

  lemma WindowPhaseDescends(c: Config, s: State)
    requires WellFormed(c, s) && LeadInv(c, s.shared, s.lead) && Windowing(s.lead.at)
    requires WellFormed(c, WindowPhase(c, s))
    ensures Descends(c, s, WindowPhase(c, s))
  {
  }

  lemma PushDescends(c: Config, s: State)
    requires WellFormed(c, s) && LeadInv(c, s.shared, s.lead) && s.lead.at.Push?
    requires WellFormed(c, PushNext(c, s, s.lead.at.snap))
    ensures Descends(c, s, PushNext(c, s, s.lead.at.snap))
  {
  }

  lemma FileDescends(c: Config, s: State)
    requires WellFormed(c, s) && LeadInv(c, s.shared, s.lead) && s.lead.at.Got?
    ensures GivesUp(c, s, FileMessage(c, s, s.lead.at.ordinal))
  {
  }

  lemma ReceiveDescends(c: Config, s: State)
    requires WellFormed(c, s) && LeadInv(c, s.shared, s.lead) && CoordinatorEnabled(s)
    requires s.lead.at.Full? || s.lead.at.Receive?
    requires WellFormed(c, QueuePhase(c, s))
    ensures Descends(c, s, QueuePhase(c, s))
  {
  }

  lemma QueuePhaseDescends(c: Config, s: State)
    requires WellFormed(c, s) && LeadInv(c, s.shared, s.lead) && CoordinatorSignalInv(c, s) && CoordinatorEnabled(s)
    requires !Finishing(s.lead.at) && !Committing(s.lead.at) && !Windowing(s.lead.at)
    requires WellFormed(c, QueuePhase(c, s))
    ensures Descends(c, s, QueuePhase(c, s))
  {
    if s.lead.at.Push? {
      PushDescends(c, s);
    } else if s.lead.at.Got? {
      FileDescends(c, s);
    } else if s.lead.at.Full? || s.lead.at.Receive? {
      ReceiveDescends(c, s);
    }
  }

  lemma CoordinatorDescends(c: Config, s: State)
    requires WellFormed(c, s) && Conserved(s) && LeadInv(c, s.shared, s.lead) && SignalInv(c, s) && CoordinatorEnabled(s)
    requires WellFormed(c, CoordinatorNext(c, s))
    ensures Measure(c, CoordinatorNext(c, s)) < Measure(c, s)
  {
    if Finishing(s.lead.at) {
      FinishPhaseDescends(c, s);
    } else if Windowing(s.lead.at) {
      WindowPhaseDescends(c, s);
    } else if Committing(s.lead.at) {
      match s.lead.at
      case Frontier => FrontierDescends(c, s);
      case Collect => CollectDescends(c, s);
      case CommitWindow => CommitWindowDescends(c, s);
    } else {
      QueuePhaseDescends(c, s);
    }
    DescendsLowers(c, s, CoordinatorNext(c, s));
  }
}
