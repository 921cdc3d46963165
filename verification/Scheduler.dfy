/**
 The bounded ordered scheduler as a transition system under sequentially
 consistent interleaving.  One coordinator and a fixed pool of workers share a
 bounded FIFO task queue, a bounded result channel and a progress signal; each
 thread has a deterministic next step, and a run is any interleaving of them.

 Program counters are as fine as the shared accesses: an operation on a queue
 and the notification that follows it are separate steps, and so are taking a
 progress snapshot, trying the queue, and blocking on the snapshot.
 */
module Scheduler {
  import opened Basics
  import opened TaskQueues

  /** What reading and preparing one row group produces.  A caught panic is an error. */
  datatype Outcome =
    | Good(value: nat)            // decoded and prepared
    | PrepareFailed(code: nat)    // decoded, then preparation failed
    | ReadFailed(code: nat)       // nothing was decoded

  /** One invocation of the ordered-commit callback: the ordinal and the data it is shown. */
  datatype Call = Call(ordinal: nat, view: Slot)

  /** What the callback answers. */
  datatype Answer = Continue | Stop | Refuse(code: nat)

  /** Contents of one reusable buffer slot. */
  datatype Slot = Untouched | Torn(writer: nat) | Filled(value: nat)

  datatype Error =
    | TaskError(code: nat)
    | CommitError(code: nat)
    | WorkersEnded       // "workers ended before the ordered frontier resolved"
    | DuplicateOrdinal   // "produced a duplicate row-group ordinal"

  datatype Verdict = Finished(cancelled: bool) | Failed(error: Error)

  /**
   Everything fixed for one run.  `commit` answers the callback from the whole
   history of calls, so it may keep any state it likes.
   */
  datatype Config = Config(
    taskCount: nat,
    workerCount: nat,
    maxInFlight: nat,
    taskCapacity: nat,
    resultCapacity: nat,
    windowed: bool,
    outcomes: seq<Outcome>,
    rowCounts: seq<nat>,
    commit: seq<Call> -> Answer)

  ghost predicate ValidConfig(c: Config) {
    && 1 <= c.taskCount == |c.outcomes| == |c.rowCounts|
    && 1 <= c.workerCount
    && 1 <= c.maxInFlight
    && 1 <= c.taskCapacity
    && 1 <= c.resultCapacity
  }

  predicate Fails(c: Config, k: nat)
    requires k < |c.outcomes|
  {
    !c.outcomes[k].Good?
  }

  function ErrorOf(o: Outcome): Error
    requires !o.Good?
  {
    TaskError(o.code)
  }

  /** Rows that count as decoded for an ordinal: all of them unless the read failed. */
  function DecodedRows(c: Config, k: nat): nat
    requires k < |c.outcomes| == |c.rowCounts|
  {
    if c.outcomes[k].ReadFailed? then 0 else c.rowCounts[k]
  }

  type Snapshot = Option<nat>

  datatype Worker =
    | Idle                                      // in `TaskQueue::pop`
    | Popped(ordinal: nat)                      // popped, progress not yet notified
    | Taken(ordinal: nat)                       // about to check for cancellation
    | Running(ordinal: nat)                     // reading and preparing
    | Ready(ordinal: nat)                       // top of the publish loop
    | Checked(ordinal: nat)                     // not cancelled; about to take a snapshot
    | Snapped(ordinal: nat, snap: Snapshot)     // about to try to send
    | Blocked(ordinal: nat, snap: Snapshot)     // channel was full
    | Sent                                      // sent, progress not yet notified
    | Exited(lost: Option<nat>)                    // returned, with an abandoned ordinal if any

  datatype Coordinator =
    // both modes
    | Push(snap: Snapshot)         // about to push the next task
    | Full(snap: Snapshot)         // queue was full; about to `try_recv`
    | Wait(snap: Snapshot)         // nothing to receive either
    | Receive                      // in blocking `recv`
    | Got(ordinal: nat)            // received, progress not yet notified
    | CloseQueue                   // last task pushed; about to close
    | CloseSignal                  // closed, progress not yet notified
    // sliding mode
    | Frontier                     // top of the commit loop
    // windowed mode
    | WindowHead
    | PushWindow
    | Fill
    | Collect
    | CommitWindow
    // after the coordinating function has returned
    | Stopping(verdict: Verdict)
    | Closing(verdict: Verdict)
    | Signalling(verdict: Verdict)
    | Dropping(verdict: Verdict)
    | Joining(verdict: Verdict)
    | Done(verdict: Verdict)

  predicate Finishing(p: Coordinator) {
    p.Stopping? || p.Closing? || p.Signalling? || p.Dropping? || p.Joining? || p.Done?
  }

  datatype Report = Report(
    committed: nat,
    rowsCommitted: nat,
    maxInFlightSeen: nat)

  /** What all threads share: the two queues, the progress signal and the cancel flag. */
  datatype Shared = Shared(
    queue: Queue,
    results: seq<nat>,
    receiverOpen: bool,
    notifyOn: bool,          // `progress_notifications`
    generation: nat,         // `ProgressSignal::generation`
    cancelled: bool)

  /** What executing tasks leaves behind. */
  datatype Work = Work(
    done: seq<bool>,         // ordinals whose execution has completed
    observations: Observations,
    slots: seq<Slot>)

  /** What the coordinator keeps to itself. */
  datatype Lead = Lead(
    at: Coordinator,
    nextToQueue: nat,
    nextToCommit: nat,
    windowStart: nat,
    stopLaunching: bool,
    pending: set<nat>,       // the reorder map, by ordinal
    ended: Option<nat>,      // the ordinal whose message ended the run, if any
    calls: seq<Call>,        // every callback invocation so far
    report: Report)

  datatype State = State(shared: Shared, work: Work, workers: seq<Worker>, lead: Lead)

  function WindowSize(c: Config): nat { if c.maxInFlight <= c.taskCount then c.maxInFlight else c.taskCount }

  function Init(c: Config): State {
    State(
      Shared(Queue([], false), [], true,
             !c.windowed || c.taskCapacity < WindowSize(c) || c.resultCapacity < WindowSize(c),
             0, false),
      Work(seq(c.taskCount, _ => false), Observations(0, 0, 0, 0), seq(c.maxInFlight, _ => Untouched)),
      seq(c.workerCount, _ => Idle),
      Lead(if c.windowed then WindowHead else Frontier, 0, 0, 0, false, {}, None, [], Report(0, 0, 0)))
  }

  ghost predicate WellFormed(c: Config, s: State) {
    && ValidConfig(c)
    && |s.workers| == c.workerCount
    && |s.work.slots| == c.maxInFlight
    && |s.work.done| == c.taskCount
    && s.lead.nextToCommit <= s.lead.nextToQueue <= c.taskCount
    && s.lead.windowStart <= c.taskCount
    && (forall i :: 0 <= i < |s.workers| && s.workers[i].Running? ==> s.workers[i].ordinal < c.taskCount)
    && (s.lead.at.Got? ==> s.lead.at.ordinal < c.taskCount)
  }

  // ---------------------------------------------------------------- shared pieces

  function TakeSnapshot(h: Shared): Snapshot {
    if h.notifyOn then Some(h.generation) else None
  }

  /** `TaskQueue::notify_progress`. */
  function Notify(h: Shared): Shared {
    if h.notifyOn then h.(generation := h.generation + 1) else h
  }

  predicate AllExited(ws: seq<Worker>) {
    forall i :: 0 <= i < |ws| ==> ws[i].Exited?
  }

  // ---------------------------------------------------------------- workers

  /** A blocked wait is enabled once its snapshot is stale or the run is cancelled. */
  predicate WorkerEnabled(h: Shared, w: Worker) {
    match w
    case Idle => h.cancelled || h.queue.tasks != [] || h.queue.closed
    case Blocked(_, Some(g)) => h.generation != g || h.cancelled
    case Exited(_) => false
    case _ => true
  }

  /** A worker step seen from its own program counter: what it shares, and where it goes. */
  function WorkerStep(c: Config, h: Shared, w: Worker): (Shared, Worker)
    requires WorkerEnabled(h, w)
  {
    match w
    case Idle =>
      if h.cancelled then (h, Exited(None))
      else if h.queue.tasks != [] then (h.(queue := PopFront(h.queue)), Popped(h.queue.tasks[0]))
      else (h, Exited(None))
    case Popped(k) => (Notify(h), Taken(k))
    case Taken(k) => (h, if h.cancelled then Exited(Some(k)) else Running(k))
    case Running(k) => (h, Ready(k))
    case Ready(k) => (h, if h.cancelled then Exited(Some(k)) else Checked(k))
    case Checked(k) => (h, Snapped(k, TakeSnapshot(h)))
    case Snapped(k, snap) =>
      if !h.receiverOpen then (h, Exited(Some(k)))
      else if |h.results| < c.resultCapacity then (h.(results := h.results + [k]), Sent)
      else (h, Blocked(k, snap))
    case Blocked(k, Some(_)) => (h, if h.cancelled then Exited(Some(k)) else Ready(k))
    case Blocked(k, None) => (h.(notifyOn := true), Ready(k))
    case Sent => (Notify(h), Idle)
  }

  /**
   What a worker step does to the buffers and counters: starting on ordinal `k`
   tears its slot, completing it fills the slot, unless the read failed.
   */
  function WorkStep(c: Config, h: Shared, b: Work, w: Worker): Work
    requires 1 <= c.maxInFlight == |b.slots|
    requires |c.outcomes| == |c.rowCounts| == |b.done|
    requires w.Running? ==> w.ordinal < |b.done|
  {
    match w
    case Taken(k) =>
      if h.cancelled then b else b.(slots := b.slots[k % c.maxInFlight := Torn(k)])
    case Running(k) =>
      b.(done := b.done[k := true],
         observations := ResultCompleted(b.observations, DecodedRows(c, k)),
         slots := if c.outcomes[k].Good? then b.slots[k % c.maxInFlight := Filled(c.outcomes[k].value)] else b.slots)
    case _ => b
  }

  /** The next state when worker `i` runs. */
  ghost function WorkerNext(c: Config, s: State, i: nat): State
    requires WellFormed(c, s)
    requires i < |s.workers| && WorkerEnabled(s.shared, s.workers[i])
  {
    var (shared, w) := WorkerStep(c, s.shared, s.workers[i]);
    State(shared, WorkStep(c, s.shared, s.work, s.workers[i]), s.workers[i := w], s.lead)
  }

  // ---------------------------------------------------------------- coordinator

  predicate CoordinatorEnabled(s: State) {
    match s.lead.at
    case Wait(Some(g)) => s.shared.generation != g || s.shared.cancelled
    case Receive => s.shared.results != [] || AllExited(s.workers)
    case Joining(_) => AllExited(s.workers)
    case Done(_) => false
    case _ => true
  }

  function WindowEnd(c: Config, d: Lead): nat {
    if d.windowStart + c.maxInFlight <= c.taskCount then d.windowStart + c.maxInFlight else c.taskCount
  }

  /** Where the coordinator resumes after a wait, a receipt or a close. */
  function Resume(c: Config, d: Lead): Coordinator {
    if !c.windowed then Frontier
    else if d.nextToQueue < WindowEnd(c, d) then Fill
    else Collect
  }

  /** Hand the next ordinal to the callback and act on its answer. */
  function CommitNext(c: Config, s: State): State
    requires s.lead.nextToCommit < |c.outcomes| == |c.rowCounts|
    requires 1 <= c.maxInFlight == |s.work.slots|
  {
    var d := s.lead;
    var k := d.nextToCommit;
    var calls := d.calls + [Call(k, s.work.slots[k % c.maxInFlight])];
    match c.commit(calls)
    case Refuse(code) =>
      s.(lead := d.(pending := d.pending - {k}, ended := Some(k), calls := calls,
                    at := Stopping(Failed(CommitError(code)))))
    case answer =>
      s.(shared := s.shared.(cancelled := s.shared.cancelled || answer.Stop?),
         work := s.work.(observations := ResultCommitted(s.work.observations, c.rowCounts[k])),
         lead := d.(
           pending := d.pending - {k},
           calls := calls,
           nextToCommit := k + 1,
           report := d.report.(
             committed := SaturatingAdd64(d.report.committed, 1),
             rowsCommitted := SaturatingAdd64(d.report.rowsCommitted, c.rowCounts[k])),
           at := if answer.Stop? then Stopping(Finished(true)) else d.at))
  }

  /** The message of ordinal `k` is an error: cancel and return it. */
  function RejectNext(c: Config, s: State, k: nat): State
    requires k < |c.outcomes| && Fails(c, k)
  {
    s.(shared := s.shared.(cancelled := true),
       lead := s.lead.(pending := s.lead.pending - {k}, ended := Some(k),
                       at := Stopping(Failed(ErrorOf(c.outcomes[k])))))
  }

  function Goto(s: State, p: Coordinator): State { s.(lead := s.lead.(at := p)) }

  predicate CanQueue(c: Config, d: Lead) {
    !d.stopLaunching && d.nextToQueue < c.taskCount && d.nextToQueue - d.nextToCommit < c.maxInFlight
  }

  /** Top of the sliding loop. */
  function FrontierNext(c: Config, s: State): State
    requires s.lead.nextToCommit <= c.taskCount == |c.outcomes| == |c.rowCounts|
    requires 1 <= c.maxInFlight == |s.work.slots|
  {
    var k := s.lead.nextToCommit;
    if k == c.taskCount then Goto(s, Stopping(Finished(false)))
    else if k in s.lead.pending then
      if Fails(c, k) then RejectNext(c, s, k) else CommitNext(c, s)
    else if CanQueue(c, s.lead) then Goto(s, Push(TakeSnapshot(s.shared)))
    else Goto(s, Receive)
  }

  function PushNext(c: Config, s: State, snap: Snapshot): State {
    var d := s.lead;
    match TryPush(s.shared.queue, c.taskCapacity, d.nextToQueue)
    case (Closed, _) => Goto(s, Stopping(Failed(WorkersEnded)))
    case (IsFull, _) => Goto(s, Full(snap))
    case (Pushed, q) =>
      var base := if c.windowed then d.windowStart else d.nextToCommit;
      s.(shared := s.shared.(queue := q),
         lead := d.(
           nextToQueue := d.nextToQueue + 1,
           report := d.report.(maxInFlightSeen := Max(d.report.maxInFlightSeen, d.nextToQueue + 1 - base)),
           at := if c.windowed then Fill
                 else if d.nextToQueue + 1 == c.taskCount then CloseQueue
                 else Frontier))
  }

  function Receipt(s: State): State
    requires s.shared.results != []
  {
    Goto(s.(shared := s.shared.(results := s.shared.results[1..])), Got(s.shared.results[0]))
  }

  /** After a receipt: notify progress, then file the message in the reorder map. */
  function FileMessage(c: Config, s: State, k: nat): State
    requires k < |c.outcomes|
  {
    var d := s.lead;
    s.(shared := Notify(s.shared),
       lead := if k in d.pending then d.(at := Stopping(Failed(DuplicateOrdinal)))
               else d.(pending := d.pending + {k},
                       stopLaunching := d.stopLaunching || Fails(c, k),
                       at := Resume(c, d)))
  }

  /** The tasks of the current window. */
  function WindowTasks(c: Config, d: Lead): seq<nat>
    requires d.windowStart <= WindowEnd(c, d)
  {
    UpTo(WindowEnd(c, d))[d.windowStart..]
  }

  function PushWindowNext(c: Config, s: State): State
    requires s.lead.windowStart <= WindowEnd(c, s.lead)
  {
    var d := s.lead;
    match TryPushAll(s.shared.queue, c.taskCapacity, WindowTasks(c, d))
    case (Closed, _) => Goto(s, Stopping(Failed(WorkersEnded)))
    case (IsFull, _) => Goto(s.(shared := s.shared.(notifyOn := true)), Fill)
    case (Pushed, q) =>
      s.(shared := s.shared.(queue := q),
         lead := d.(
           nextToQueue := WindowEnd(c, d),
           report := d.report.(maxInFlightSeen := Max(d.report.maxInFlightSeen, WindowEnd(c, d) - d.windowStart)),
           at := Fill))
  }

  /** Smallest ordinal in `[from, end)` that is filed and failed, or `end`. */
  function FirstFailure(c: Config, pending: set<nat>, from: nat, end: nat): (k: nat)
    requires from <= end <= |c.outcomes|
    ensures from <= k <= end
    ensures k < end ==> k in pending && Fails(c, k)
    ensures forall j :: from <= j < k && j in pending ==> !Fails(c, j)
    decreases end - from
  {
    if from == end || (from in pending && Fails(c, from)) then from
    else FirstFailure(c, pending, from + 1, end)
  }

  function CollectNext(c: Config, s: State): State
    requires s.lead.windowStart <= WindowEnd(c, s.lead) <= |c.outcomes|
  {
    var end := WindowEnd(c, s.lead);
    if |s.lead.pending| < end - s.lead.windowStart then Goto(s, Receive)
    else
      var k := FirstFailure(c, s.lead.pending, s.lead.windowStart, end);
      if k < end then RejectNext(c, s, k) else Goto(s, CommitWindow)
  }

  function CommitWindowNext(c: Config, s: State): State
    requires s.lead.nextToCommit <= c.taskCount == |c.outcomes| == |c.rowCounts|
    requires 1 <= c.maxInFlight == |s.work.slots|
  {
    var k := s.lead.nextToCommit;
    if k == WindowEnd(c, s.lead) then s.(lead := s.lead.(windowStart := k, at := WindowHead))
    else if k == c.taskCount || k !in s.lead.pending then Goto(s, Stopping(Failed(WorkersEnded)))
    else if Fails(c, k) then RejectNext(c, s, k)
    else CommitNext(c, s)
  }

  function Closed(h: Shared): Shared { h.(queue := h.queue.(closed := true)) }

  predicate Committing(p: Coordinator) { p.Frontier? || p.Collect? || p.CommitWindow? }

  predicate Windowing(p: Coordinator) { p.WindowHead? || p.PushWindow? || p.Fill? }

  /** Deciding on filed results. */
  ghost function CommitPhase(c: Config, s: State): State
    requires WellFormed(c, s) && Committing(s.lead.at)
  {
    match s.lead.at
    case Frontier => FrontierNext(c, s)
    case Collect => CollectNext(c, s)
    case CommitWindow => CommitWindowNext(c, s)
  }

  /** Starting and filling a window. */
  ghost function WindowPhase(c: Config, s: State): State
    requires WellFormed(c, s) && Windowing(s.lead.at)
  {
    match s.lead.at
    case WindowHead =>
      Goto(s, if s.lead.windowStart == c.taskCount then Stopping(Finished(false))
              else if s.shared.notifyOn then Fill else PushWindow)
    case PushWindow => PushWindowNext(c, s)
    case Fill =>
      Goto(s, if s.lead.nextToQueue < WindowEnd(c, s.lead) then Push(TakeSnapshot(s.shared))
              else if WindowEnd(c, s.lead) == c.taskCount then CloseQueue
              else Collect)
  }

  /** Pushing tasks, receiving results and closing the queue. */
  ghost function QueuePhase(c: Config, s: State): State
    requires WellFormed(c, s) && CoordinatorEnabled(s)
    requires !Finishing(s.lead.at) && !Committing(s.lead.at) && !Windowing(s.lead.at)
  {
    match s.lead.at
    case Push(snap) => PushNext(c, s, snap)
    case Full(snap) =>
      if s.shared.results != [] then Receipt(s)
      else if AllExited(s.workers) then Goto(s, Stopping(Failed(WorkersEnded)))
      else Goto(s, Wait(snap))
    case Wait(Some(_)) => Goto(s, Resume(c, s.lead))
    case Wait(None) => Goto(s.(shared := s.shared.(notifyOn := true)), Resume(c, s.lead))
    case Receive =>
      if s.shared.results != [] then Receipt(s) else Goto(s, Stopping(Failed(WorkersEnded)))
    case Got(k) => FileMessage(c, s, k)
    case CloseQueue => Goto(s.(shared := Closed(s.shared)), CloseSignal)
    case CloseSignal => Goto(s.(shared := Notify(s.shared)), Resume(c, s.lead))
  }

  /** Cancelling, closing, dropping the receiver and joining the workers. */
  ghost function FinishPhase(s: State): State
    requires CoordinatorEnabled(s) && Finishing(s.lead.at)
  {
    match s.lead.at
    case Stopping(v) =>
      Goto(s.(shared := s.shared.(cancelled := s.shared.cancelled || v != Finished(false))), Closing(v))
    case Closing(v) => Goto(s.(shared := Closed(s.shared)), Signalling(v))
    case Signalling(v) => Goto(s.(shared := Notify(s.shared)), Dropping(v))
    case Dropping(v) => Goto(s.(shared := s.shared.(receiverOpen := false)), Joining(v))
    case Joining(v) => Goto(s, Done(v))
  }

  /** The next state when the coordinator runs. */
  ghost function CoordinatorNext(c: Config, s: State): State
    requires WellFormed(c, s) && CoordinatorEnabled(s)
  {
    if Finishing(s.lead.at) then FinishPhase(s)
    else if Committing(s.lead.at) then CommitPhase(c, s)
    else if Windowing(s.lead.at) then WindowPhase(c, s)
    else QueuePhase(c, s)
  }

  // ---------------------------------------------------------------- runs

  /** A thread: the coordinator or one of the workers. */
  datatype Thread = TheCoordinator | TheWorker(id: nat)

  ghost predicate Enabled(c: Config, s: State, t: Thread) {
    && WellFormed(c, s)
    && match t {
         case TheCoordinator => CoordinatorEnabled(s)
         case TheWorker(i) => i < |s.workers| && WorkerEnabled(s.shared, s.workers[i])
       }
  }

  ghost function Next(c: Config, s: State, t: Thread): State
    requires Enabled(c, s, t)
  {
    match t
    case TheCoordinator => CoordinatorNext(c, s)
    case TheWorker(i) => WorkerNext(c, s, i)
  }

  /** A run: the schedule `ts` drives `Init(c)` through the states `ss`. */
  ghost predicate IsRun(c: Config, ss: seq<State>, ts: seq<Thread>) {
    && |ss| == |ts| + 1
    && ss[0] == Init(c)
    && forall j :: 0 <= j < |ts| ==> Enabled(c, ss[j], ts[j]) && ss[j + 1] == Next(c, ss[j], ts[j])
  }

  /** The run is over: the coordinator has returned and every worker has been joined. */
  predicate Complete(s: State) { s.lead.at.Done? }
}
