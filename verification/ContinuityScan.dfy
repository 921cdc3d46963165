/**
 The continuity scan of the physical-v2 certifier, over decoded lanes.
 */
module ContinuityScan {
  import opened Basics
  import opened Bytes
  import opened Slices
  import CompactL2

  datatype ScanError =
    | Payload(error: CompactL2.Error)
    | ChannelIdMismatch
    | BizIndexDuplicate
    | BizIndexRegression
    | BizIndexGap
    | RowCountMismatch
    | ChecksumMismatch
    | InvalidInput

  const HEADER_MISMATCH: ScanError := Payload(CompactL2.HeaderMismatch)

  /** The scalar lanes of one row. */
  datatype Row = Row(day: I32, channel: I64, biz: I64, nano: I64, kind: I32)

  /** What both scans report about the rows seen. */
  datatype Totals = Totals(
    rows: U64, orders: U64, trades: U64,
    first: Option<U64>, last: Option<U64>,
    minNano: Option<I64>, maxNano: Option<I64>)

  const NO_ROWS: Totals := Totals(0, 0, 0, None, None, None, None)

  /** Account for one accepted row. */
  function Observe(t: Totals, biz: U64, nano: I64, isOrder: bool): Totals {
    Totals(
      SaturatingAdd64(t.rows, 1),
      if isOrder then SaturatingAdd64(t.orders, 1) else t.orders,
      if isOrder then t.trades else SaturatingAdd64(t.trades, 1),
      if t.first.Some? then t.first else Some(biz),
      Some(biz),
      Some(if t.minNano.Some? then Min(t.minNano.value, nano) else nano),
      Some(if t.maxNano.Some? then Max(t.maxNano.value, nano) else nano))
  }

  // ---------------------------------------------------------------- the scan

  /** Optional expectations of the v2 certifier. */
  datatype Expect = Expect(day: Option<U32>, channel: Option<U32>, first: Option<U64>, last: Option<U64>)

  datatype LaneState = LaneState(totals: Totals, next: Option<U64>)

  const FRESH: LaneState := LaneState(NO_ROWS, None)

  /** How a BizIndex other than the expected one is reported. */
  function Misplaced(biz: U64, expected: U64): ScanError {
    if biz > expected then BizIndexGap
    else if expected - biz == 1 then BizIndexDuplicate
    else BizIndexRegression
  }

  /** One row of `scan_compact_l2_physical_v2_batch`. */
  function ScanRow(o: Expect, s: LaneState, r: Row): Result<LaneState, ScanError> {
    if r.day < 0 then Err(HEADER_MISMATCH)
    else if o.day.Some? && r.day != o.day.value then Err(HEADER_MISMATCH)
    else if !(0 <= r.channel < 0x1_0000_0000) then Err(ChannelIdMismatch)
    else if o.channel.Some? && r.channel != o.channel.value then Err(ChannelIdMismatch)
    else if r.biz < 0 then Err(HEADER_MISMATCH)
    else
      var expected := match s.next case Some(n) => n case None => if o.first.Some? then o.first.value else r.biz;
      if r.biz != expected then Err(Misplaced(r.biz, expected))
      else if r.biz + 1 >= U64_LIMIT then Err(BizIndexGap)
      else if r.kind != 1 && r.kind != 2 then Err(HEADER_MISMATCH)
      else if s.totals.rows + 1 >= U64_LIMIT then Err(RowCountMismatch)
      else Ok(LaneState(Observe(s.totals, r.biz, r.nano, r.kind == 1), Some(r.biz + 1)))
  }

  function ScanRows(o: Expect, s: LaneState, rows: seq<Row>): Result<LaneState, ScanError> {
    if rows == [] then Ok(s)
    else
      var before :- ScanRows(o, s, rows[..|rows| - 1]);
      ScanRow(o, before, rows[|rows| - 1])
  }

  /** Scanning two pieces in turn scans their concatenation. */
  lemma {:induction false} ScanAppend(o: Expect, s: LaneState, a: seq<Row>, b: seq<Row>)
    ensures ScanRows(o, s, a + b) ==
            match ScanRows(o, s, a) case Ok(mid) => ScanRows(o, mid, b) case Err(e) => Err(e)
    decreases |b|
  {
    if b == [] {
      assert a + b == a;
    } else {
      var n := |b| - 1;
      ScanAppend(o, s, a, b[..n]);
      assert (a + b)[..|a + b| - 1] == a + b[..n];
    }
  }

  /** The scan of row groups, one after another. */
  function ScanGroups(o: Expect, s: LaneState, groups: seq<seq<Row>>): Result<LaneState, ScanError> {
    if groups == [] then Ok(s)
    else
      var before :- ScanGroups(o, s, groups[..|groups| - 1]);
      ScanRows(o, before, groups[|groups| - 1])
  }

  lemma {:induction false} GroupsAreRows(o: Expect, s: LaneState, groups: seq<seq<Row>>)
    ensures ScanGroups(o, s, groups) == ScanRows(o, s, Flatten(groups))
  {
    if groups != [] {
      var n := |groups| - 1;
      GroupsAreRows(o, s, groups[..n]);
      ScanAppend(o, s, Flatten(groups[..n]), groups[n]);
    }
  }

  /** The verdict, the report and the error do not depend on how rows are cut into groups. */
  lemma PartitionIndependent(o: Expect, s: LaneState, a: seq<seq<Row>>, b: seq<seq<Row>>)
    requires Flatten(a) == Flatten(b)
    ensures ScanGroups(o, s, a) == ScanGroups(o, s, b)
  {
    GroupsAreRows(o, s, a);
    GroupsAreRows(o, s, b);
  }

  // ---------------------------------------------------------------- exactness

  /** The BizIndex the first row must carry. */
  function Start(o: Expect, rows: seq<Row>): int {
    if o.first.Some? then o.first.value else if rows == [] then 0 else rows[0].biz
  }

  predicate RowExpected(o: Expect, r: Row) {
    && 0 <= r.day && (o.day.Some? ==> r.day == o.day.value)
    && 0 <= r.channel < 0x1_0000_0000 && (o.channel.Some? ==> r.channel == o.channel.value)
    && 0 <= r.biz
    && (r.kind == 1 || r.kind == 2)
  }

  /** Every row is as expected and BizIndex runs from `start` without a gap. */
  ghost predicate Continuous(o: Expect, start: int, rows: seq<Row>) {
    forall i :: 0 <= i < |rows| ==> RowExpected(o, rows[i]) && rows[i].biz == start + i
  }

  /** The report over accepted rows, by plain accumulation. */
  ghost function Tally(rows: seq<Row>): Totals
    requires forall i :: 0 <= i < |rows| ==> 0 <= rows[i].biz
  {
    if rows == [] then NO_ROWS
    else
      var r := rows[|rows| - 1];
      Observe(Tally(rows[..|rows| - 1]), r.biz, r.nano, r.kind == 1)
  }

  ghost function CountKind(rows: seq<Row>, kind: int): (n: nat)
    ensures n <= |rows|
  {
    if rows == [] then 0
    else CountKind(rows[..|rows| - 1], kind) + if rows[|rows| - 1].kind == kind then 1 else 0
  }

  ghost predicate IsLeastNano(x: I64, rows: seq<Row>) {
    (exists i :: 0 <= i < |rows| && rows[i].nano == x) && forall i :: 0 <= i < |rows| ==> x <= rows[i].nano
  }

  ghost predicate IsGreatestNano(x: I64, rows: seq<Row>) {
    (exists i :: 0 <= i < |rows| && rows[i].nano == x) && forall i :: 0 <= i < |rows| ==> rows[i].nano <= x
  }

  /** The true facts a report states about its rows. */
  ghost predicate Describes(t: Totals, rows: seq<Row>) {
    && t.rows == |rows|
    && t.orders == CountKind(rows, 1) && t.trades == CountKind(rows, 2)
    && t.orders + t.trades == t.rows
    && (rows == [] ==> t == NO_ROWS)
    && (rows != [] ==>
        && t.first == Some(rows[0].biz) && t.last == Some(rows[|rows| - 1].biz)
        && t.minNano.Some? && IsLeastNano(t.minNano.value, rows)
        && t.maxNano.Some? && IsGreatestNano(t.maxNano.value, rows))
  }

  lemma ExtremesExtend(rows: seq<Row>, r: Row, lo: I64, hi: I64)
    requires IsLeastNano(lo, rows) && IsGreatestNano(hi, rows)
    ensures IsLeastNano(Min(lo, r.nano), rows + [r]) && IsGreatestNano(Max(hi, r.nano), rows + [r])
  {
    var all := rows + [r];
    assert all[|rows|] == r;
    var i :| 0 <= i < |rows| && rows[i].nano == lo;
    var j :| 0 <= j < |rows| && rows[j].nano == hi;
    assert all[i] == rows[i] && all[j] == rows[j];
  }

  lemma CountsExtend(rows: seq<Row>, r: Row, kind: int)
    ensures CountKind(rows + [r], kind) == CountKind(rows, kind) + if r.kind == kind then 1 else 0
  {
    assert (rows + [r])[..|rows|] == rows;
  }

  lemma FirstRowDescribed(r: Row)
    requires 0 <= r.biz && (r.kind == 1 || r.kind == 2)
    ensures Describes(Observe(NO_ROWS, r.biz, r.nano, r.kind == 1), [r])
  {
    CountsExtend([], r, 1);
    CountsExtend([], r, 2);
    assert [] + [r] == [r];
    assert [r][0].nano == r.nano;
  }

  lemma NextRowDescribed(t: Totals, rows: seq<Row>, r: Row)
    requires |rows| + 1 < U64_LIMIT && rows != [] && Describes(t, rows)
    requires 0 <= r.biz && (r.kind == 1 || r.kind == 2)
    ensures Describes(Observe(t, r.biz, r.nano, r.kind == 1), rows + [r])
  {
    CountsExtend(rows, r, 1);
    CountsExtend(rows, r, 2);
    ExtremesExtend(rows, r, t.minNano.value, t.maxNano.value);
  }

  /** Accumulated totals are true: exact counts, first and last index, true nano extremes. */
  lemma {:induction false} TallyDescribes(rows: seq<Row>)
    requires |rows| < U64_LIMIT
    requires forall i :: 0 <= i < |rows| ==> 0 <= rows[i].biz && (rows[i].kind == 1 || rows[i].kind == 2)
    ensures Describes(Tally(rows), rows)
  {
    if rows != [] {
      var n := |rows| - 1;
      assert rows == rows[..n] + [rows[n]];
      if n == 0 {
        FirstRowDescribed(rows[0]);
      } else {
        TallyDescribes(rows[..n]);
        NextRowDescribed(Tally(rows[..n]), rows[..n], rows[n]);
      }
    }
  }

  /** What is wrong with a row that should carry `expected`, in the order the scan looks. */
  function Blame(o: Expect, expected: int, r: Row): Option<ScanError> {
    if !(0 <= r.day && (o.day.Some? ==> r.day == o.day.value)) then Some(HEADER_MISMATCH)
    else if !(0 <= r.channel < 0x1_0000_0000 && (o.channel.Some? ==> r.channel == o.channel.value)) then Some(ChannelIdMismatch)
    else if r.biz < 0 then Some(HEADER_MISMATCH)
    else if r.biz > expected then Some(BizIndexGap)
    else if r.biz == expected - 1 then Some(BizIndexDuplicate)
    else if r.biz < expected then Some(BizIndexRegression)
    else if r.kind != 1 && r.kind != 2 then Some(HEADER_MISMATCH)
    else None
  }

  lemma NothingToBlame(o: Expect, expected: int, r: Row)
    ensures Blame(o, expected, r) == None <==> RowExpected(o, r) && r.biz == expected
  {
  }

  /** The state after rows that run on from `start`. */
  ghost predicate Reached(s: LaneState, start: int, rows: seq<Row>) {
    && (forall i :: 0 <= i < |rows| ==> 0 <= rows[i].biz)
    && s.totals == Tally(rows) && s.totals.rows == |rows|
    && s.next == if rows == [] || start < 0 then None else Some(SaturatingAdd64(start, |rows|))
  }

  lemma RowScanned(o: Expect, s: LaneState, start: int, rows: seq<Row>, r: Row)
    requires Continuous(o, start, rows) && Reached(s, start, rows) && start == Start(o, rows + [r])
    ensures match Blame(o, start + |rows|, r)
            case Some(e) => ScanRow(o, s, r) == Err(e)
            case None => ScanRow(o, s, r).Ok? && Reached(ScanRow(o, s, r).value, start, rows + [r])
  {
    if rows != [] {
      assert RowExpected(o, rows[0]) && rows[|rows| - 1].biz == start + |rows| - 1;
    }
    assert (rows + [r])[..|rows|] == rows;
  }

  /** Row `k` is the first to break the run, and `e` says how. */
  ghost predicate FirstBad(o: Expect, rows: seq<Row>, k: int, e: ScanError) {
    0 <= k < |rows| && Continuous(o, Start(o, rows), rows[..k]) && Blame(o, Start(o, rows) + k, rows[k]) == Some(e)
  }

  lemma FirstBadExtends(o: Expect, rows: seq<Row>, r: Row, k: int, e: ScanError)
    requires FirstBad(o, rows, k, e)
    ensures FirstBad(o, rows + [r], k, e)
  {
    assert (rows + [r])[..k] == rows[..k];
  }

  lemma BadIsNotContinuous(o: Expect, rows: seq<Row>, k: int, e: ScanError)
    requires FirstBad(o, rows, k, e)
    ensures !Continuous(o, Start(o, rows), rows)
  {
    NothingToBlame(o, Start(o, rows) + k, rows[k]);
  }

  /** An acceptance is of a continuous run; a refusal names its first bad row. */
  ghost predicate Explained(o: Expect, rows: seq<Row>, res: Result<LaneState, ScanError>) {
    match res
    case Ok(s) => Continuous(o, Start(o, rows), rows) && Reached(s, Start(o, rows), rows)
    case Err(e) => exists k :: FirstBad(o, rows, k, e)
  }

  lemma ExplainedAfter(o: Expect, rows: seq<Row>, r: Row, res: Result<LaneState, ScanError>)
    requires Explained(o, rows, res)
    ensures Explained(o, rows + [r], match res case Ok(s) => ScanRow(o, s, r) case Err(e) => Err(e))
  {
    var all, start := rows + [r], Start(o, rows + [r]);
    match res
    case Err(e) =>
      var k :| FirstBad(o, rows, k, e);
      FirstBadExtends(o, rows, r, k, e);
    case Ok(s) =>
      assert all[..|rows|] == rows && all[|rows|] == r;
      RowScanned(o, s, start, rows, r);
      NothingToBlame(o, start + |rows|, r);
      var blame := Blame(o, start + |rows|, r);
      if blame.Some? {
        assert FirstBad(o, all, |rows|, blame.value);
      }
  }

  lemma {:induction false} ScanExplained(o: Expect, rows: seq<Row>)
    ensures Explained(o, rows, ScanRows(o, FRESH, rows))
  {
    if rows != [] {
      var n := |rows| - 1;
      ScanExplained(o, rows[..n]);
      ExplainedAfter(o, rows[..n], rows[n], ScanRows(o, FRESH, rows[..n]));
      assert rows == rows[..n] + [rows[n]];
    }
  }

  /**
   The scan accepts exactly the continuous runs, for any rows and any expectations,
   and its report is true of them.
   */
  lemma ScanExact(o: Expect, rows: seq<Row>)
    ensures ScanRows(o, FRESH, rows).Ok? <==> Continuous(o, Start(o, rows), rows)
    ensures ScanRows(o, FRESH, rows).Ok? ==> Describes(ScanRows(o, FRESH, rows).value.totals, rows)
  {
    ScanExplained(o, rows);
    match ScanRows(o, FRESH, rows)
    case Ok(s) =>
      TallyDescribes(rows);
    case Err(e) =>
      var k :| FirstBad(o, rows, k, e);
      BadIsNotContinuous(o, rows, k, e);
  }

  /** A refusal names what is wrong with the first row that breaks the run, and nothing else. */
  lemma RefusalNamesFirstBadRow(o: Expect, rows: seq<Row>, e: ScanError)
    ensures ScanRows(o, FRESH, rows) == Err(e) <==> exists k :: FirstBad(o, rows, k, e)
  {
    ScanExplained(o, rows);
    if k :| FirstBad(o, rows, k, e) {
      BadIsNotContinuous(o, rows, k, e);
      var f := ScanRows(o, FRESH, rows).error;
      var j :| FirstBad(o, rows, j, f);
      FirstBadUnique(o, rows, k, e, j, f);
    }
  }

  lemma FirstBadUnique(o: Expect, rows: seq<Row>, k: int, e: ScanError, j: int, f: ScanError)
    requires FirstBad(o, rows, k, e) && FirstBad(o, rows, j, f)
    ensures k == j && e == f
  {
    NothingToBlame(o, Start(o, rows) + k, rows[k]);
    NothingToBlame(o, Start(o, rows) + j, rows[j]);
  }
}
