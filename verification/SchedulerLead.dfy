/**
 Coordinator bookkeeping: what each program counter knows about the frontier,
 the window, the reorder map and the worker pool.
 */
module SchedulerLead {
  import opened Basics
  import opened TaskQueues
  import opened Scheduler
  import opened SchedulerFlow

  /** The verdict of a returned coordinator; the two internal errors never occur. */
  ghost predicate VerdictInv(c: Config, h: Shared, d: Lead)
    requires Finishing(d.at)
  {
    var v := d.at.verdict;
    && 1 <= d.nextToQueue
    && (v == Finished(false) ==> d.nextToCommit == c.taskCount)
    && (v != Finished(false) && !d.at.Stopping? ==> h.cancelled)
    && (v.Failed? ==> v.error != WorkersEnded && v.error != DuplicateOrdinal)
    && (!d.at.Stopping? && !d.at.Closing? ==> h.queue.closed)
    && (!d.at.Joining? && !d.at.Done? ==> h.receiverOpen)
  }

  /** Sliding mode, before returning. */
  ghost predicate SlidingInv(c: Config, d: Lead) {
    && (d.stopLaunching ==> exists k :: k in d.pending && k < |c.outcomes| && Fails(c, k))
    && match d.at {
         case Frontier => true
         case Push(_) => CanQueue(c, d) && d.nextToCommit !in d.pending
         case Full(_) => CanQueue(c, d) && d.nextToCommit !in d.pending
         case Wait(_) => CanQueue(c, d) && d.nextToCommit !in d.pending
         case Receive => d.nextToCommit < c.taskCount && d.nextToCommit !in d.pending && !CanQueue(c, d)
         case Got(_) => true
         case CloseQueue => d.nextToQueue == c.taskCount
         case CloseSignal => d.nextToQueue == c.taskCount
         case _ => false
       }
  }

  /** Windowed mode, before returning. */
  ghost predicate WindowInv(c: Config, d: Lead) {
    var start, end := d.windowStart, WindowEnd(c, d);
    && start <= d.nextToCommit <= d.nextToQueue <= end
    && (!d.at.CommitWindow? ==> d.nextToCommit == start)
    && (!d.at.WindowHead? ==> start < end)
    && match d.at {
         case WindowHead => d.nextToQueue == start
         case PushWindow => d.nextToQueue == start
         case Fill => true
         case Push(_) => d.nextToQueue < end
         case Full(_) => d.nextToQueue < end
         case Wait(_) => d.nextToQueue < end
         case Got(_) => true
         case CloseQueue => d.nextToQueue == c.taskCount
         case CloseSignal => d.nextToQueue == c.taskCount
         case Collect => d.nextToQueue == end
         case Receive => d.nextToQueue == end && |d.pending| < end - start
         case CommitWindow =>
           d.nextToQueue == end
           && forall k :: d.nextToCommit <= k < end ==> k in d.pending && k < |c.outcomes| && !Fails(c, k)
         case _ => false
       }
  }

  ghost predicate LeadInv(c: Config, h: Shared, d: Lead) {
    && d.nextToCommit <= d.nextToQueue <= c.taskCount
    && d.windowStart <= c.taskCount
    && d.nextToQueue - d.nextToCommit <= c.maxInFlight
    && if Finishing(d.at) then VerdictInv(c, h, d)
       else
         && !h.cancelled && h.receiverOpen && d.ended == None
         && (h.queue.closed ==> d.nextToQueue == c.taskCount)
         && (if c.windowed then WindowInv(c, d) else SlidingInv(c, d))
  }

  /** Until the coordinator returns, workers leave only once no task can come. */
  ghost predicate PoolInv(s: State) {
    !Finishing(s.lead.at) ==>
      forall i :: 0 <= i < |s.workers| && s.workers[i].Exited? ==>
        s.workers[i].lost == None && s.shared.queue.closed && s.shared.queue.tasks == []
  }

  lemma WorkerKeepsLead(c: Config, s: State, i: nat)
    requires WellFormed(c, s) && LeadInv(c, s.shared, s.lead)
    requires i < |s.workers| && WorkerEnabled(s.shared, s.workers[i])
    ensures LeadInv(c, WorkerNext(c, s, i).shared, s.lead)
  {
  }

  lemma WorkerKeepsPool(c: Config, s: State, i: nat)
    requires WellFormed(c, s) && LeadInv(c, s.shared, s.lead) && PoolInv(s)
    requires i < |s.workers| && WorkerEnabled(s.shared, s.workers[i])
    ensures PoolInv(WorkerNext(c, s, i))
  {
  }

  /** While something the coordinator waits for is outstanding, a worker is left to produce it. */
  lemma SomebodyWorks(s: State)
    requires PoolInv(s) && !Finishing(s.lead.at) && 1 <= |s.workers|
    requires s.shared.queue.tasks != [] || HeldTotal(s.workers) > 0
    ensures !AllExited(s.workers)
  {
    if AllExited(s.workers) {
      assert s.workers[0].Exited?;
      var i := SomeHolder(s.workers);
    }
  }

  lemma {:induction false} NoHolders(ws: seq<Worker>, k: nat)
    requires HeldTotal(ws) == 0
    ensures Holders(ws, k) == 0
  {
    if ws != [] {
      NoHolders(ws[..|ws| - 1], k);
    }
  }

  /** At a blocking receive, something is still on its way. */
  lemma ReceiveHasSource(c: Config, s: State)
    requires WellFormed(c, s) && Conserved(s) && LeadInv(c, s.shared, s.lead)
    requires s.lead.at.Receive?
    ensures s.shared.results != [] || s.shared.queue.tasks != [] || HeldTotal(s.workers) > 0
  {
    var d := s.lead;
    if HeldTotal(s.workers) == 0 {
      NoHolders(s.workers, d.nextToCommit);
      assert Places(s, d.nextToCommit) == if d.nextToCommit < d.nextToQueue then 1 else 0;
    }
  }

  /** A collected window is filed in full. */
  lemma CollectedWindow(c: Config, s: State, k: nat)
    requires WellFormed(c, s) && Conserved(s) && LeadInv(c, s.shared, s.lead)
    requires s.lead.at.Collect? && |s.lead.pending| >= WindowEnd(c, s.lead) - s.lead.windowStart
    requires s.lead.windowStart <= k < WindowEnd(c, s.lead)
    ensures k in s.lead.pending
  {
    NoHolders(s.workers, k);
    assert Places(s, k) == 1;
  }

  /** Committing, or ending the run on, a filed ordinal takes it out of the reorder map. */
  lemma CommitStepMoves(c: Config, s: State) returns (m: Move)
    requires WellFormed(c, s) && s.lead.ended == None && !s.lead.at.Got?
    requires s.lead.nextToCommit < c.taskCount && s.lead.nextToCommit in s.lead.pending
    ensures Moved(s, CommitNext(c, s), m)
  {
    m := if CommitNext(c, s).lead.ended.Some? then Ends(s.lead.nextToCommit) else Commits;
  }

  lemma CommitPhaseMoves(c: Config, s: State) returns (m: Move)
    requires WellFormed(c, s) && LeadInv(c, s.shared, s.lead) && Committing(s.lead.at)
    ensures Moved(s, CommitPhase(c, s), m)
  {
    var d, s' := s.lead, CommitPhase(c, s);
    if s'.lead.pending == d.pending {
      m := Stays;
    } else if d.at.Collect? || Fails(c, d.nextToCommit) {
      m := Ends(s'.lead.ended.value);
    } else {
      m := CommitStepMoves(c, s);
    }
  }

  lemma QueuePhaseMoves(c: Config, s: State) returns (m: Move)
    requires WellFormed(c, s) && Conserved(s) && LeadInv(c, s.shared, s.lead) && CoordinatorEnabled(s)
    requires !Finishing(s.lead.at) && !Committing(s.lead.at) && !Windowing(s.lead.at)
    ensures Moved(s, QueuePhase(c, s), m)
  {
    var d, d' := s.lead, QueuePhase(c, s).lead;
    if d.at.Got? {
      InFlightRange(s, d.at.ordinal);
      m := Files;
    } else {
      m := if d'.at.Got? then Receives else if d'.nextToQueue != d.nextToQueue then Pushes else Stays;
    }
  }

  /** Every coordinator step but a bulk push moves at most one ordinal; none touches completion. */
  lemma CoordinatorNextMoves(c: Config, s: State) returns (m: Move)
    requires WellFormed(c, s) && Conserved(s) && LeadInv(c, s.shared, s.lead) && CoordinatorEnabled(s)
    requires !s.lead.at.PushWindow?
    ensures Moved(s, CoordinatorNext(c, s), m)
  {
    if Finishing(s.lead.at) || Windowing(s.lead.at) {
      m := Stays;
    } else if Committing(s.lead.at) {
      m := CommitPhaseMoves(c, s);
    } else {
      m := QueuePhaseMoves(c, s);
    }
  }

  /** Every coordinator step conserves ordinals. */
  lemma CoordinatorConserves(c: Config, s: State)
    requires WellFormed(c, s) && Conserved(s) && LeadInv(c, s.shared, s.lead) && CoordinatorEnabled(s)
    ensures Conserved(CoordinatorNext(c, s))
  {
    var s' := CoordinatorNext(c, s);
    if !s.lead.at.PushWindow? {
      var m := CoordinatorNextMoves(c, s);
      MovedConserves(s, s', m);
    } else if s'.lead.nextToQueue == s.lead.nextToQueue {
      MovedConserves(s, s', Stays);
    } else {
      PushWindowConserves(s, s', WindowEnd(c, s.lead));
    }
  }

  // ---------------------------------------------------------------- preservation

  lemma CommitNextKeepsLead(c: Config, s: State)
    requires WellFormed(c, s) && Conserved(s) && LeadInv(c, s.shared, s.lead)
    requires s.lead.at.Frontier? || s.lead.at.CommitWindow?
    requires s.lead.nextToCommit in s.lead.pending && s.lead.nextToCommit < c.taskCount && !Fails(c, s.lead.nextToCommit)
    requires c.windowed ==> s.lead.nextToCommit < WindowEnd(c, s.lead)
    ensures LeadInv(c, CommitNext(c, s).shared, CommitNext(c, s).lead)
  {
    InFlightRange(s, s.lead.nextToCommit);
  }

  lemma FrontierKeepsLead(c: Config, s: State)
    requires WellFormed(c, s) && Conserved(s) && LeadInv(c, s.shared, s.lead) && s.lead.at.Frontier?
    ensures LeadInv(c, FrontierNext(c, s).shared, FrontierNext(c, s).lead)
  {
    var k := s.lead.nextToCommit;
    if k < c.taskCount && k in s.lead.pending {
      InFlightRange(s, k);
      if !Fails(c, k) {
        CommitNextKeepsLead(c, s);
      }
    }
  }

  lemma CollectKeepsLead(c: Config, s: State)
    requires WellFormed(c, s) && Conserved(s) && LeadInv(c, s.shared, s.lead) && s.lead.at.Collect?
    ensures LeadInv(c, CollectNext(c, s).shared, CollectNext(c, s).lead)
  {
    var d := s.lead;
    assert d.nextToQueue == WindowEnd(c, d) >= 1;
    if |d.pending| >= WindowEnd(c, d) - d.windowStart {
      forall k | d.windowStart <= k < WindowEnd(c, d) ensures k in d.pending {
        CollectedWindow(c, s, k);
      }
    }
  }

  lemma CommitWindowKeepsLead(c: Config, s: State)
    requires WellFormed(c, s) && Conserved(s) && LeadInv(c, s.shared, s.lead) && s.lead.at.CommitWindow?
    ensures LeadInv(c, CommitWindowNext(c, s).shared, CommitWindowNext(c, s).lead)
  {
    if s.lead.nextToCommit < WindowEnd(c, s.lead) {
      CommitNextKeepsLead(c, s);
    }
  }

  lemma WindowPhaseKeepsLead(c: Config, s: State)
    requires WellFormed(c, s) && LeadInv(c, s.shared, s.lead) && Windowing(s.lead.at)
    ensures LeadInv(c, WindowPhase(c, s).shared, WindowPhase(c, s).lead)
  {
  }

  lemma PushKeepsLead(c: Config, s: State)
    requires WellFormed(c, s) && LeadInv(c, s.shared, s.lead) && s.lead.at.Push?
    ensures LeadInv(c, PushNext(c, s, s.lead.at.snap).shared, PushNext(c, s, s.lead.at.snap).lead)
  {
  }

  lemma FileKeepsLead(c: Config, s: State)
    requires WellFormed(c, s) && Conserved(s) && LeadInv(c, s.shared, s.lead) && s.lead.at.Got?
    ensures LeadInv(c, FileMessage(c, s, s.lead.at.ordinal).shared, FileMessage(c, s, s.lead.at.ordinal).lead)
  {
    InFlightRange(s, s.lead.at.ordinal);
  }

  /** Receiving, when a message or an unfinished worker is sure to exist. */
  lemma ReceiveKeepsLead(c: Config, s: State)
    requires WellFormed(c, s) && Conserved(s) && LeadInv(c, s.shared, s.lead) && PoolInv(s) && CoordinatorEnabled(s)
    requires s.lead.at.Receive? || s.lead.at.Full?
    ensures LeadInv(c, QueuePhase(c, s).shared, QueuePhase(c, s).lead)
  {
    if s.lead.at.Receive? && s.shared.results == [] {
      ReceiveHasSource(c, s);
      SomebodyWorks(s);
    } else if s.lead.at.Full? {
      assert !s.workers[0].Exited?;
    }
  }

  lemma QueuePhaseKeepsLead(c: Config, s: State)
    requires WellFormed(c, s) && Conserved(s) && LeadInv(c, s.shared, s.lead) && PoolInv(s) && CoordinatorEnabled(s)
    requires !Finishing(s.lead.at) && !Committing(s.lead.at) && !Windowing(s.lead.at)
    ensures LeadInv(c, QueuePhase(c, s).shared, QueuePhase(c, s).lead)
  {
    if s.lead.at.Push? {
      PushKeepsLead(c, s);
    } else if s.lead.at.Got? {
      FileKeepsLead(c, s);
    } else if s.lead.at.Receive? || s.lead.at.Full? {
      ReceiveKeepsLead(c, s);
    }
  }

  lemma FinishPhaseKeepsLead(c: Config, s: State)
    requires LeadInv(c, s.shared, s.lead) && Finishing(s.lead.at) && CoordinatorEnabled(s)
    ensures LeadInv(c, FinishPhase(s).shared, FinishPhase(s).lead)
  {
  }

  lemma CoordinatorKeepsPool(c: Config, s: State)
    requires WellFormed(c, s) && LeadInv(c, s.shared, s.lead) && PoolInv(s) && CoordinatorEnabled(s)
    ensures PoolInv(CoordinatorNext(c, s))
  {
    var s' := CoordinatorNext(c, s);
    if !Finishing(s'.lead.at) && s.shared.queue.closed {
      assert s'.shared.queue == s.shared.queue;
    }
  }

  lemma CoordinatorKeepsLead(c: Config, s: State)
    requires WellFormed(c, s) && Conserved(s) && LeadInv(c, s.shared, s.lead) && PoolInv(s) && CoordinatorEnabled(s)
    ensures LeadInv(c, CoordinatorNext(c, s).shared, CoordinatorNext(c, s).lead)
  {
    if Finishing(s.lead.at) {
      FinishPhaseKeepsLead(c, s);
    } else if Windowing(s.lead.at) {
      WindowPhaseKeepsLead(c, s);
    } else if Committing(s.lead.at) {
      match s.lead.at
      case Frontier => FrontierKeepsLead(c, s);
      case Collect => CollectKeepsLead(c, s);
      case CommitWindow => CommitWindowKeepsLead(c, s);
    } else {
      QueuePhaseKeepsLead(c, s);
    }
  }
}
