/**
 Queue bounds and snapshot freshness: a thread blocked on a snapshot that is
 still current is blocked for a reason that still holds, or a thread that has
 just removed the reason is about to notify.  From this, no deadlock.
 */
module SchedulerSignal {
  import opened Basics
  import opened TaskQueues
  import opened Scheduler
  import opened SchedulerFlow
  import opened SchedulerLead

  /** Some worker has popped a task and not yet notified. */
  ghost predicate SomePopped(ws: seq<Worker>) {
    exists i :: 0 <= i < |ws| && ws[i].Popped?
  }

  /** Some worker has sent a result and not yet notified. */
  ghost predicate SomeSent(ws: seq<Worker>) {
    exists i :: 0 <= i < |ws| && ws[i].Sent?
  }

  ghost predicate FreshSnapshot(h: Shared, snap: Snapshot) {
    snap.Some? ==> h.notifyOn && snap.value <= h.generation
  }

  ghost predicate Current(h: Shared, snap: Snapshot) { snap == Some(h.generation) }

  /** A worker blocked on a current snapshot faces a full channel, or a receipt about to be announced. */
  ghost predicate WorkerSignalInv(c: Config, h: Shared, p: Coordinator, w: Worker) {
    match w
    case Snapped(_, snap) => FreshSnapshot(h, snap)
    case Blocked(_, snap) =>
      && FreshSnapshot(h, snap)
      && (Current(h, snap) && !Finishing(p) ==> |h.results| == c.resultCapacity || p.Got?)
    case _ => true
  }

  /** The coordinator's view of the same, for a full task queue and an empty channel. */
  ghost predicate CoordinatorSignalInv(c: Config, s: State) {
    var h := s.shared;
    match s.lead.at
    case Push(snap) => FreshSnapshot(h, snap)
    case Full(snap) =>
      && FreshSnapshot(h, snap)
      && (Current(h, snap) ==> |h.queue.tasks| == c.taskCapacity || SomePopped(s.workers))
    case Wait(snap) =>
      && FreshSnapshot(h, snap)
      && (Current(h, snap) ==> |h.queue.tasks| == c.taskCapacity || SomePopped(s.workers))
      && (Current(h, snap) ==> h.results == [] || SomeSent(s.workers))
    case _ => true
  }

  ghost predicate SignalInv(c: Config, s: State) {
    && |s.shared.queue.tasks| <= c.taskCapacity
    && |s.shared.results| <= c.resultCapacity
    && CoordinatorSignalInv(c, s)
    && forall i :: 0 <= i < |s.workers| ==> WorkerSignalInv(c, s.shared, s.lead.at, s.workers[i])
  }

  /** One worker's step does not spoil another worker's freshness. */
  lemma WorkerKeepsOther(c: Config, h: Shared, p: Coordinator, w: Worker, other: Worker)
    requires |h.results| <= c.resultCapacity
    requires WorkerEnabled(h, w) && WorkerSignalInv(c, h, p, other)
    ensures WorkerSignalInv(c, WorkerStep(c, h, w).0, p, other)
  {
  }

  lemma WorkerKeepsOwn(c: Config, h: Shared, p: Coordinator, w: Worker)
    requires |h.results| <= c.resultCapacity
    requires WorkerEnabled(h, w) && WorkerSignalInv(c, h, p, w)
    ensures WorkerSignalInv(c, WorkerStep(c, h, w).0, p, WorkerStep(c, h, w).1)
  {
  }

  lemma WorkerKeepsCoordinatorSignal(c: Config, s: State, i: nat)
    requires WellFormed(c, s) && SignalInv(c, s)
    requires i < |s.workers| && WorkerEnabled(s.shared, s.workers[i])
    ensures CoordinatorSignalInv(c, WorkerNext(c, s, i))
  {
    var ws, s' := s.workers, WorkerNext(c, s, i);
    var p := s.lead.at;
    if p.Full? || p.Wait? {
      if SomePopped(ws) {
        var j :| 0 <= j < |ws| && ws[j].Popped?;
        assert s'.workers[j].Popped? || i == j;
      }
      if SomeSent(ws) {
        var j :| 0 <= j < |ws| && ws[j].Sent?;
        assert s'.workers[j].Sent? || i == j;
      }
      assert s'.workers[i].Popped? ==> SomePopped(s'.workers);
      assert s'.workers[i].Sent? ==> SomeSent(s'.workers);
    }
  }

  lemma WorkerKeepsSignal(c: Config, s: State, i: nat)
    requires WellFormed(c, s) && SignalInv(c, s)
    requires i < |s.workers| && WorkerEnabled(s.shared, s.workers[i])
    ensures SignalInv(c, WorkerNext(c, s, i))
  {
    var s' := WorkerNext(c, s, i);
    WorkerKeepsCoordinatorSignal(c, s, i);
    forall j | 0 <= j < |s'.workers| ensures WorkerSignalInv(c, s'.shared, s'.lead.at, s'.workers[j]) {
      if j == i {
        WorkerKeepsOwn(c, s.shared, s.lead.at, s.workers[i]);
      } else {
        WorkerKeepsOther(c, s.shared, s.lead.at, s.workers[i], s.workers[j]);
      }
    }
  }

  /** What a coordinator step may do to the shared state, as far as blocked workers can tell. */
  ghost predicate Announces(h: Shared, h': Shared, p: Coordinator, p': Coordinator) {
    && (h.notifyOn ==> h'.notifyOn)
    && h.generation <= h'.generation <= h.generation + 1
    && (h'.results == h.results || p'.Got?)
    && (p.Got? && h.notifyOn ==> h'.generation > h.generation)
    && (Finishing(p) ==> Finishing(p'))
  }

  lemma AnnouncedKeepsWorker(c: Config, h: Shared, h': Shared, p: Coordinator, p': Coordinator, w: Worker)
    requires Announces(h, h', p, p') && WorkerSignalInv(c, h, p, w)
    ensures WorkerSignalInv(c, h', p', w)
  {
  }

  lemma CoordinatorAnnounces(c: Config, s: State)
    requires WellFormed(c, s) && CoordinatorEnabled(s)
    ensures var s' := CoordinatorNext(c, s); Announces(s.shared, s'.shared, s.lead.at, s'.lead.at)
  {
  }

  /** Capacities, and the coordinator's own freshness. */
  ghost predicate OwnSignal(c: Config, s: State) {
    && |s.shared.queue.tasks| <= c.taskCapacity
    && |s.shared.results| <= c.resultCapacity
    && CoordinatorSignalInv(c, s)
  }

  lemma QueuePhaseKeepsOwnSignal(c: Config, s: State)
    requires WellFormed(c, s) && LeadInv(c, s.shared, s.lead) && OwnSignal(c, s) && CoordinatorEnabled(s)
    requires !Finishing(s.lead.at) && !Committing(s.lead.at) && !Windowing(s.lead.at)
    ensures OwnSignal(c, QueuePhase(c, s))
  {
  }

  lemma WindowPhaseKeepsOwnSignal(c: Config, s: State)
    requires WellFormed(c, s) && LeadInv(c, s.shared, s.lead) && OwnSignal(c, s) && Windowing(s.lead.at)
    ensures OwnSignal(c, WindowPhase(c, s))
  {
  }

  lemma CommitPhaseKeepsOwnSignal(c: Config, s: State)
    requires WellFormed(c, s) && LeadInv(c, s.shared, s.lead) && OwnSignal(c, s) && Committing(s.lead.at)
    ensures OwnSignal(c, CommitPhase(c, s))
  {
  }

  lemma CoordinatorKeepsOwnSignal(c: Config, s: State)
    requires WellFormed(c, s) && LeadInv(c, s.shared, s.lead) && OwnSignal(c, s) && CoordinatorEnabled(s)
    ensures OwnSignal(c, CoordinatorNext(c, s))
  {
    if Committing(s.lead.at) {
      CommitPhaseKeepsOwnSignal(c, s);
    } else if Windowing(s.lead.at) {
      WindowPhaseKeepsOwnSignal(c, s);
    } else if !Finishing(s.lead.at) {
      QueuePhaseKeepsOwnSignal(c, s);
    }
  }

  lemma CoordinatorKeepsSignal(c: Config, s: State)
    requires WellFormed(c, s) && LeadInv(c, s.shared, s.lead) && SignalInv(c, s) && CoordinatorEnabled(s)
    ensures SignalInv(c, CoordinatorNext(c, s))
  {
    var s' := CoordinatorNext(c, s);
    CoordinatorKeepsOwnSignal(c, s);
    CoordinatorAnnounces(c, s);
    forall j | 0 <= j < |s'.workers| ensures WorkerSignalInv(c, s'.shared, s'.lead.at, s'.workers[j]) {
      AnnouncedKeepsWorker(c, s.shared, s'.shared, s.lead.at, s'.lead.at, s.workers[j]);
    }
  }

  // ---------------------------------------------------------------- no deadlock

  ghost predicate SomeWorkerEnabled(s: State) {
    exists i :: 0 <= i < |s.workers| && WorkerEnabled(s.shared, s.workers[i])
  }

  /** A worker that still has something to do, with nobody to wait for, can move. */
  lemma UnblockedWorkerEnabled(c: Config, s: State, i: nat)
    requires SignalInv(c, s) && i < |s.workers| && !s.workers[i].Exited?
    requires !Finishing(s.lead.at) && !s.lead.at.Got?
    requires s.shared.results == [] && 1 <= c.resultCapacity
    requires s.workers[i].Idle? ==> s.shared.queue.tasks != []
    ensures WorkerEnabled(s.shared, s.workers[i])
  {
    assert WorkerSignalInv(c, s.shared, s.lead.at, s.workers[i]);
  }

  lemma WaitingCoordinatorHasHelp(c: Config, s: State)
    requires WellFormed(c, s) && LeadInv(c, s.shared, s.lead) && PoolInv(s) && SignalInv(c, s)
    requires s.lead.at.Wait? && !CoordinatorEnabled(s)
    ensures SomeWorkerEnabled(s)
  {
    if SomePopped(s.workers) {
      var j :| 0 <= j < |s.workers| && s.workers[j].Popped?;
      assert WorkerEnabled(s.shared, s.workers[j]);
    } else if SomeSent(s.workers) {
      var j :| 0 <= j < |s.workers| && s.workers[j].Sent?;
      assert WorkerEnabled(s.shared, s.workers[j]);
    } else {
      UnblockedWorkerEnabled(c, s, 0);
    }
  }

  lemma ReceivingCoordinatorHasHelp(c: Config, s: State)
    requires WellFormed(c, s) && Conserved(s) && LeadInv(c, s.shared, s.lead) && PoolInv(s) && SignalInv(c, s)
    requires s.lead.at.Receive? && !CoordinatorEnabled(s)
    ensures SomeWorkerEnabled(s)
  {
    ReceiveHasSource(c, s);
    if s.shared.queue.tasks != [] {
      UnblockedWorkerEnabled(c, s, 0);
    } else {
      var j := SomeHolder(s.workers);
      UnblockedWorkerEnabled(c, s, j);
    }
  }

  lemma JoiningCoordinatorHasHelp(c: Config, s: State)
    requires WellFormed(c, s) && Conserved(s) && LeadInv(c, s.shared, s.lead)
    requires s.lead.at.Joining? && !CoordinatorEnabled(s)
    ensures SomeWorkerEnabled(s)
  {
    var j :| 0 <= j < |s.workers| && !s.workers[j].Exited?;
    HoldersHas(s.workers, j, 0);
    assert WorkerEnabled(s.shared, s.workers[j]);
  }

  /** In every unfinished state some thread can move. */
  lemma NoDeadlock(c: Config, s: State)
    requires WellFormed(c, s) && Conserved(s) && LeadInv(c, s.shared, s.lead) && PoolInv(s) && SignalInv(c, s)
    requires !Complete(s)
    ensures exists t :: Enabled(c, s, t)
  {
    if CoordinatorEnabled(s) {
      assert Enabled(c, s, TheCoordinator);
    } else {
      if s.lead.at.Wait? {
        WaitingCoordinatorHasHelp(c, s);
      } else if s.lead.at.Receive? {
        ReceivingCoordinatorHasHelp(c, s);
      } else {
        JoiningCoordinatorHasHelp(c, s);
      }
      var i :| 0 <= i < |s.workers| && WorkerEnabled(s.shared, s.workers[i]);
      assert Enabled(c, s, TheWorker(i));
    }
  }
}
