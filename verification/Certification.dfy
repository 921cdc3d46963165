/** The certifier's loops over row groups, and the link between the two physical layouts. */
module Certification {
  import opened Basics
  import opened Bytes
  import opened Slices
  import opened CompactL2
  import opened CompactL2Batch
  import opened CompactL2Writer
  import opened ContinuityScan
  import opened PayloadScan
  import opened Fnv

  // ---------------------------------------------------------------- v2: one batch

  function RowsOf(v: BatchView): (rows: seq<Row>)
    requires LanesValid(v)
    ensures |rows| == v.rowCount
  {
    seq(v.rowCount, i requires 0 <= i < v.rowCount =>
      Row(v.dayKey[i], v.channelId[i], v.bizIndex[i], v.receiveNano[i], v.recordKind[i]))
  }

  function ScanView(o: Expect, s: LaneState, v: BatchView): Result<LaneState, ScanError> {
    if !LanesValid(v) then Err(HEADER_MISMATCH) else ScanRows(o, s, RowsOf(v))
  }

  /** `PhysicalV2ScanState`. */
  class LaneScan {
    var rows: U64
    var orders: U64
    var trades: U64
    var first: Option<U64>
    var last: Option<U64>
    var next: Option<U64>
    var minNano: Option<I64>
    var maxNano: Option<I64>

    function State(): LaneState
      reads this
    {
      LaneState(Totals(rows, orders, trades, first, last, minNano, maxNano), next)
    }

    constructor ()
      ensures State() == FRESH
    {
      rows, orders, trades := 0, 0, 0;
      first, last, next, minNano, maxNano := None, None, None, None, None;
    }

    /** The row is of the expected day and channel and next in the run. */
    predicate InPlace(o: Expect, r: Row)
      reads this
    {
      && 0 <= r.day && (o.day.Some? ==> r.day == o.day.value)
      && 0 <= r.channel < 0x1_0000_0000 && (o.channel.Some? ==> r.channel == o.channel.value)
      && 0 <= r.biz && r.biz == if next.Some? then next.value else if o.first.Some? then o.first.value else r.biz
    }

    /** The checks at the head of the loop body. */
    method CheckRow(o: Expect, r: Row) returns (res: Result<(), ScanError>)
      ensures res.Ok? <==> InPlace(o, r)
      ensures res.Err? ==> ScanRow(o, State(), r) == Err(res.error)
    {
      if r.day < 0 || (o.day.Some? && r.day != o.day.value) {
        return Err(HEADER_MISMATCH);
      }
      if !(0 <= r.channel < 0x1_0000_0000) || (o.channel.Some? && r.channel != o.channel.value) {
        return Err(ChannelIdMismatch);
      }
      if r.biz < 0 {
        return Err(HEADER_MISMATCH);
      }
      var expected: U64 := r.biz;
      if next.Some? {
        expected := next.value;
      } else if o.first.Some? {
        expected := o.first.value;
      }
      if r.biz < expected {
        return Err(if expected - r.biz == 1 then BizIndexDuplicate else BizIndexRegression);
      }
      if r.biz > expected {
        return Err(BizIndexGap);
      }
      return Ok(());
    }

    /** The loop body of `scan_compact_l2_physical_v2_batch`. */
    method ScanOne(o: Expect, r: Row) returns (res: Result<(), ScanError>)
      modifies this
      ensures match ScanRow(o, old(State()), r)
              case Ok(s) => res == Ok(()) && State() == s
              case Err(e) => res == Err(e)
    {
      res := CheckRow(o, r);
      if res.Err? {
        return;
      }
      if first.None? {
        first := Some(r.biz);
      }
      last := Some(r.biz);
      next := Some(r.biz + 1);
      minNano := Some(if minNano.Some? then Min(minNano.value, r.nano) else r.nano);
      maxNano := Some(if maxNano.Some? then Max(maxNano.value, r.nano) else r.nano);
      if r.kind == 1 {
        orders := SaturatingAdd64(orders, 1);
      } else if r.kind == 2 {
        trades := SaturatingAdd64(trades, 1);
      } else {
        return Err(HEADER_MISMATCH);
      }
      if rows + 1 >= U64_LIMIT {
        return Err(RowCountMismatch);
      }
      rows := rows + 1;
      return Ok(());
    }

    /** `scan_compact_l2_physical_v2_batch`. */
    method Batch(o: Expect, v: BatchView) returns (res: Result<(), ScanError>)
      modifies this
      ensures match ScanView(o, old(State()), v)
              case Ok(s) => res == Ok(()) && State() == s
              case Err(e) => res == Err(e)
    {
      if !LanesValid(v) {
        return Err(HEADER_MISMATCH);
      }
      var all := RowsOf(v);
      for i := 0 to v.rowCount
        invariant ScanRows(o, old(State()), all[..i]) == Ok(State())
      {
        assert all[..i + 1][..i] == all[..i];
        ScanPrefixFails(o, old(State()), all, i + 1);
        var step := ScanOne(o, all[i]);
        if step.Err? {
          return step;
        }
      }
      assert all[..v.rowCount] == all;
      return Ok(());
    }
  }

  lemma ScanPrefixFails(o: Expect, s: LaneState, rows: seq<Row>, k: nat)
    requires k <= |rows|
    ensures ScanRows(o, s, rows[..k]).Err? ==> ScanRows(o, s, rows) == Err(ScanRows(o, s, rows[..k]).error)
  {
    ScanAppend(o, s, rows[..k], rows[k..]);
    assert rows == rows[..k] + rows[k..];
  }

  // ---------------------------------------------------------------- v2: all waves

  datatype V2Options = V2Options(
    expected: Expect, continuity: bool, legacy: bool, maxInFlight: nat, byteLimit: U64)

  datatype Progress = Progress(scan: LaneState, hash: U64)

  const START: Progress := Progress(FRESH, OFFSET_BASIS)

  /** Without continuity only the rows are counted. */
  function CountRows(s: LaneState, n: nat): Result<LaneState, ScanError> {
    if s.totals.rows + n >= U64_LIMIT then Err(RowCountMismatch)
    else Ok(s.(totals := s.totals.(rows := s.totals.rows + n)))
  }

  /** `validate_legacy_reconstruction_resource_limit`. */
  predicate WithinLimit(o: V2Options, v: BatchView) {
    168 * v.rowCount < U64_LIMIT && 168 * v.rowCount <= o.byteLimit
  }

  function LegacyHash(o: V2Options, hash: U64, v: BatchView): Result<U64, ScanError> {
    if !o.legacy then Ok(hash)
    else if !WithinLimit(o, v) then Err(InvalidInput)
    else
      match BatchPayload(v)
      case Err(e) => Err(Payload(e))
      case Ok(bytes) => Ok(Fold(hash, bytes))
  }

  function ScanOrCount(o: V2Options, s: LaneState, v: BatchView): Result<LaneState, ScanError> {
    if o.continuity then ScanView(o.expected, s, v) else CountRows(s, v.rowCount)
  }

  function CertifyView(o: V2Options, p: Progress, v: BatchView): Result<Progress, ScanError> {
    var scan :- ScanOrCount(o, p.scan, v);
    var hash :- LegacyHash(o, p.hash, v);
    Ok(Progress(scan, hash))
  }

  function CertifyViews(o: V2Options, p: Progress, vs: seq<BatchView>): Result<Progress, ScanError> {
    if vs == [] then Ok(p)
    else
      var before :- CertifyViews(o, p, vs[..|vs| - 1]);
      CertifyView(o, before, vs[|vs| - 1])
  }

  lemma {:induction false} ViewsAppend(o: V2Options, p: Progress, a: seq<BatchView>, b: seq<BatchView>)
    ensures CertifyViews(o, p, a + b) ==
            match CertifyViews(o, p, a) case Ok(mid) => CertifyViews(o, mid, b) case Err(e) => Err(e)
    decreases |b|
  {
    if b == [] {
      assert a + b == a;
    } else {
      var n := |b| - 1;
      ViewsAppend(o, p, a, b[..n]);
      assert (a + b)[..|a + b| - 1] == a + b[..n];
    }
  }

  /** One batch further; a failure there is the failure of the whole run. */
  lemma ViewsStep(o: V2Options, p: Progress, vs: seq<BatchView>, i: nat)
    requires i < |vs| && CertifyViews(o, p, vs[..i]).Ok?
    ensures var step := CertifyView(o, CertifyViews(o, p, vs[..i]).value, vs[i]);
            CertifyViews(o, p, vs[..i + 1]) == step && (step.Err? ==> CertifyViews(o, p, vs) == step)
  {
    assert vs[..i + 1][..i] == vs[..i];
    ViewsAppend(o, p, vs[..i + 1], vs[i + 1..]);
    assert vs == vs[..i + 1] + vs[i + 1..];
  }

  /** The first half of the inner loop: scan one decoded batch, or count its rows. */
  method ScanBatch(o: V2Options, v: BatchView, scan: LaneScan) returns (res: Result<(), ScanError>)
    modifies scan
    ensures match ScanOrCount(o, old(scan.State()), v)
            case Ok(s) => res == Ok(()) && scan.State() == s
            case Err(e) => res == Err(e)
  {
    if o.continuity {
      res := scan.Batch(o.expected, v);
    } else if scan.rows + v.rowCount >= U64_LIMIT {
      res := Err(RowCountMismatch);
    } else {
      scan.rows := scan.rows + v.rowCount;
      res := Ok(());
    }
  }

  /** The second half: hash the batch's reconstructed payloads. */
  method HashBatch(o: V2Options, v: BatchView, hash: Fnv1a64) returns (res: Result<(), ScanError>)
    modifies hash
    ensures match LegacyHash(o, old(hash.value), v)
            case Ok(h) => res == Ok(()) && hash.value == h
            case Err(e) => res == Err(e)
  {
    if o.legacy {
      if !WithinLimit(o, v) {
        return Err(InvalidInput);
      }
      var appended, payload := AppendPayloads(v, []);
      if appended.Err? {
        return Err(Payload(appended.error));
      }
      ghost var rebuilt := BatchPayload(v).value;
      assert [] + rebuilt == rebuilt;
      hash.Update(payload);
    }
    return Ok(());
  }

  /** The body of the inner loop. */
  method CertifyBatch(o: V2Options, v: BatchView, scan: LaneScan, hash: Fnv1a64) returns (res: Result<(), ScanError>)
    modifies scan, hash
    ensures Reports(CertifyView(o, Progress(old(scan.State()), old(hash.value)), v), res, Progress(scan.State(), hash.value))
  {
    res := ScanBatch(o, v, scan);
    if res.Ok? {
      res := HashBatch(o, v, hash);
    }
  }

  /** A step that succeeds leaves the specified state; one that fails, the specified error. */
  ghost predicate Reports<T, E>(spec: Result<T, E>, res: Result<(), E>, state: T) {
    match spec
    case Ok(s) => res == Ok(()) && state == s
    case Err(e) => res == Err(e)
  }

  /** The wave loop of `certify_compact_l2_physical_v2_file`: any wave size, one result. */
  method CertifyWaves(o: V2Options, vs: seq<BatchView>) returns (res: Result<Progress, ScanError>)
    ensures res == CertifyViews(o, START, vs)
  {
    var scan := new LaneScan();
    var hash := new Fnv1a64();
    var wave := if o.maxInFlight == 0 then 1 else o.maxInFlight;
    var start := 0;
    while start < |vs|
      invariant start <= |vs|
      invariant CertifyViews(o, START, vs[..start]) == Ok(Progress(scan.State(), hash.value))
    {
      var end := if start + wave <= |vs| then start + wave else |vs|;
      var i := start;
      while i < end
        invariant start <= i <= end
        invariant CertifyViews(o, START, vs[..i]) == Ok(Progress(scan.State(), hash.value))
      {
        ViewsStep(o, START, vs, i);
        var step := CertifyBatch(o, vs[i], scan, hash);
        if step.Err? {
          return Err(step.error);
        }
        i := i + 1;
      }
      start := end;
    }
    assert vs[..start] == vs;
    return Ok(Progress(scan.State(), hash.value));
  }
}
