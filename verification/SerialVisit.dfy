/**
 The serial visitor taken when one row group is in flight at a time, and its
 agreement with the windowed scheduler at window size one.
 */
module SerialVisit {
  import opened Basics
  import opened Scheduler
  import opened SchedulerSpec
  import opened SchedulerWork
  import opened SchedulerTheorems

  datatype CursorReport = CursorReport(
    batchesYielded: nat,
    rowsYielded: nat,
    maxInFlightSeen: nat,
    cancelled: bool)

  /** Read, deliver and count row groups one at a time. */
  method VisitSerial(c: Config) returns (effect: Effect, report: CursorReport)
    requires 1 <= |c.outcomes| == |c.rowCounts|
    ensures effect == Sequential(c, 0, [])
    ensures effect.verdict.Finished? ==>
              && |effect.calls| <= |c.rowCounts|
              && report == CursorReport(Min(|effect.calls|, U64_LIMIT - 1), SaturatedRows(c.rowCounts, |effect.calls|),
                                        1, effect.verdict.cancelled)
  {
    report := CursorReport(0, 0, 1, false);
    var calls: seq<Call> := [];
    var k := 0;
    while k < |c.outcomes|
      invariant 0 <= k <= |c.outcomes| && |calls| == k
      invariant Sequential(c, k, calls) == Sequential(c, 0, [])
      invariant report == CursorReport(Min(k, U64_LIMIT - 1), SaturatedRows(c.rowCounts, k), 1, false)
    {
      if Fails(c, k) {
        effect := Effect(calls, Failed(ErrorOf(c.outcomes[k])));
        return;
      }
      calls := calls + [OwnCall(c, k)];
      match c.commit(calls) {
        case Refuse(code) =>
          effect := Effect(calls, Failed(CommitError(code)));
          return;
        case Continue =>
          report := report.(batchesYielded := SaturatingAdd64(report.batchesYielded, 1),
                            rowsYielded := SaturatingAdd64(report.rowsYielded, c.rowCounts[k]));
        case Stop =>
          report := report.(batchesYielded := SaturatingAdd64(report.batchesYielded, 1),
                            rowsYielded := SaturatingAdd64(report.rowsYielded, c.rowCounts[k]),
                            cancelled := true);
          effect := Effect(calls, Finished(true));
          return;
      }
      k := k + 1;
    }
    effect := Effect(calls, Finished(false));
  }

  /** The cursor report the scheduler assembles from its coordinator. */
  function SchedulerReport(d: Lead): CursorReport
    requires d.at.Done? && d.at.verdict.Finished?
  {
    CursorReport(d.report.committed, d.report.rowsCommitted, d.report.maxInFlightSeen, d.at.verdict.cancelled)
  }

  /** At window size one every complete scheduler run delivers and reports what the serial visitor does. */
  lemma WindowOfOneIsSerial(c: Config, ss: seq<State>, ts: seq<Thread>)
    requires ValidConfig(c) && c.windowed && c.maxInFlight == 1
    requires IsRun(c, ss, ts) && Complete(ss[|ss| - 1])
    ensures var d := ss[|ss| - 1].lead;
            && Effect(d.calls, d.at.verdict) == Sequential(c, 0, [])
            && (d.at.verdict.Finished? ==>
                  && |d.calls| <= |c.rowCounts|
                  && SchedulerReport(d) == CursorReport(Min(|d.calls|, U64_LIMIT - 1),
                                                        SaturatedRows(c.rowCounts, |d.calls|),
                                                        1, d.at.verdict.cancelled))
  {
    Refinement(c, ss, ts);
    RunInv(c, ss, ts);
    WindowsOfOne(c, 0, []);
  }
}
