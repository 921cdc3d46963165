/** From a read request to a running scheduler: thread counts and queue capacities. */
module Launch {
  import opened Basics
  import opened Scheduler

  datatype LaunchError = ZeroInFlight | TaskCountMismatch

  /** `build_read_report`: the threads a plan may use. */
  function EffectiveThreads(requested: nat, selectedRowGroups: nat): (n: nat)
    ensures n == Max(1, Min(requested, selectedRowGroups))
  {
    var cap := Max(requested, 1);
    if cap <= 1 then 1
    else if selectedRowGroups <= 1 then 1
    else Min(cap, selectedRowGroups)
  }

  /**
   The production entry: a request is refused, finished at once when there is nothing to
   do, or run with these workers and queues.
   */
  function Start(
    requested: nat, selectedRowGroups: nat, maxInFlight: nat, windowed: bool,
    outcomes: seq<Outcome>, rowCounts: seq<nat>, commit: seq<Call> -> Answer): Result<Option<Config>, LaunchError>
    requires |outcomes| == |rowCounts|
  {
    if maxInFlight == 0 then Err(ZeroInFlight)
    else if |outcomes| != selectedRowGroups then Err(TaskCountMismatch)
    else if |outcomes| == 0 then Ok(None)
    else
      var workers := Min(Min(EffectiveThreads(requested, selectedRowGroups), maxInFlight), |outcomes|);
      var capacity := Max(workers, 1);
      Ok(Some(Config(|outcomes|, workers, maxInFlight, capacity, capacity, windowed, outcomes, rowCounts, commit)))
  }

  /**
   What is refused, finished at once and run.  A run has as many workers as the request,
   the in-flight limit and the row groups allow, at least one, with room for one item per
   worker in both queues, and gets the request's tasks, mode and callback unchanged.
   */
  lemma StartedIsValid(
    requested: nat, selectedRowGroups: nat, maxInFlight: nat, windowed: bool,
    outcomes: seq<Outcome>, rowCounts: seq<nat>, commit: seq<Call> -> Answer)
    requires |outcomes| == |rowCounts|
    ensures match Start(requested, selectedRowGroups, maxInFlight, windowed, outcomes, rowCounts, commit)
            case Ok(Some(c)) =>
              && ValidConfig(c) && maxInFlight > 0 && |outcomes| == selectedRowGroups > 0
              && c.workerCount == Max(1, Min(requested, Min(maxInFlight, |outcomes|)))
              && c.taskCapacity == c.resultCapacity == c.workerCount
              && c.taskCount == |outcomes| && c.maxInFlight == maxInFlight && c.windowed == windowed
              && c.outcomes == outcomes && c.rowCounts == rowCounts && c.commit == commit
            case Ok(None) => maxInFlight > 0 && |outcomes| == selectedRowGroups == 0
            case Err(ZeroInFlight) => maxInFlight == 0
            case Err(TaskCountMismatch) => maxInFlight > 0 && |outcomes| != selectedRowGroups
  {
  }
}
