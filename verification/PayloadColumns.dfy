/** `scan_payload_headers` as it runs: a visitor over fixed-binary row groups. */
module PayloadColumns {
  import opened Basics
  import opened Bytes
  import opened Slices
  import opened CompactL2
  import opened ContinuityScan
  import opened PayloadScan

  datatype Column = FixedBinary(width: U32, bytes: seq<Byte>) | OtherColumn

  datatype Group = Group(column: Column, rowCount: U64)

  /** Why a row group's column cannot be cut into records of the expected width. */
  function Misshapen(width: U32, g: Group): Option<ScanError> {
    if g.column.OtherColumn? || g.column.width != width then Some(Payload(WidthMismatch))
    else if width * g.rowCount >= U64_LIMIT then Some(RowCountMismatch)
    else if |g.column.bytes| < width * g.rowCount then Some(RowCountMismatch)
    else None
  }

  /** `chunks_exact`: record `i` of the group. */
  function RecordAt(width: U32, g: Group, i: nat): seq<Byte>
    requires Misshapen(width, g) == None && i < g.rowCount
  {
    MulLess(width, i, g.rowCount);
    Chunk(g.column.bytes, width, i)
  }

  function GroupDecoded(width: U32, g: Group): (ds: seq<Decoded>)
    requires Misshapen(width, g) == None
    ensures |ds| == g.rowCount
  {
    seq(g.rowCount, i requires 0 <= i < g.rowCount => DecodeHeader(RecordAt(width, g, i)))
  }

  function ScanGroup(day: U32, ch: Channel, width: U32, s: HeaderState, g: Group): Result<HeaderState, ScanError> {
    match Misshapen(width, g)
    case Some(e) => Err(e)
    case None => ScanRecords(day, ch, s, GroupDecoded(width, g))
  }

  function ScanAll(day: U32, ch: Channel, width: U32, gs: seq<Group>): Result<HeaderState, ScanError> {
    if gs == [] then Ok(HeaderState(NO_ROWS, ch.first))
    else
      var before :- ScanAll(day, ch, width, gs[..|gs| - 1]);
      ScanGroup(day, ch, width, before, gs[|gs| - 1])
  }

  function ScanColumns(day: U32, ch: Channel, width: U32, gs: seq<Group>): Result<Totals, ScanError> {
    var s :- ScanAll(day, ch, width, gs);
    ScanEnd(ch, s)
  }

  lemma PrefixTwice<T>(s: seq<T>, n: nat, k: nat)
    requires k <= n <= |s|
    ensures s[..n][..k] == s[..k]
  {
  }

  lemma {:induction false} AllStep(day: U32, ch: Channel, width: U32, gs: seq<Group>, k: nat)
    requires k <= |gs| && ScanAll(day, ch, width, gs[..k]).Err?
    ensures ScanAll(day, ch, width, gs) == Err(ScanAll(day, ch, width, gs[..k]).error)
    decreases |gs|
  {
    if k < |gs| {
      var n := |gs| - 1;
      PrefixTwice(gs, n, k);
      AllStep(day, ch, width, gs[..n], k);
      assert ScanAll(day, ch, width, gs[..n]).Err?;
    } else {
      assert gs[..k] == gs;
    }
  }

  /** One record further; a failure there is the failure of the whole group. */
  lemma RecordsStep(day: U32, ch: Channel, s: HeaderState, ds: seq<Decoded>, i: nat)
    requires i < |ds| && ScanRecords(day, ch, s, ds[..i]).Ok?
    ensures var step := ScanRecord(day, ch, ScanRecords(day, ch, s, ds[..i]).value, ds[i]);
            && ScanRecords(day, ch, s, ds[..i + 1]) == step
            && (step.Err? ==> ScanRecords(day, ch, s, ds) == step)
  {
    assert ds[..i + 1][..i] == ds[..i];
    RecordsAppend(day, ch, s, ds[..i + 1], ds[i + 1..]);
    assert ds == ds[..i + 1] + ds[i + 1..];
  }

  /** `ChannelPayloadScanState` and the expected BizIndex beside it. */
  class HeaderScan {
    var rows: U64
    var orders: U64
    var trades: U64
    var first: Option<U64>
    var last: Option<U64>
    var minNano: Option<I64>
    var maxNano: Option<I64>
    var expected: U64

    function State(): HeaderState
      reads this
    {
      HeaderState(Totals(rows, orders, trades, first, last, minNano, maxNano), expected)
    }

    constructor (ch: Channel)
      ensures State() == HeaderState(NO_ROWS, ch.first)
    {
      rows, orders, trades := 0, 0, 0;
      first, last, minNano, maxNano := None, None, None, None;
      expected := ch.first;
    }

    /** The innermost loop body. */
    method Record(day: U32, ch: Channel, record: seq<Byte>) returns (res: Result<(), ScanError>)
      modifies this
      ensures match ScanRecord(day, ch, old(State()), DecodeHeader(record))
              case Ok(s) => res == Ok(()) && State() == s
              case Err(e) => res == Err(e)
    {
      var decoded := DecodeHeader(record);
      if decoded.Err? {
        return Err(Payload(decoded.error));
      }
      res := Header(day, ch, decoded.value);
    }

    method Header(day: U32, ch: Channel, h: Header) returns (res: Result<(), ScanError>)
      modifies this
      ensures match ScanRecord(day, ch, old(State()), Ok(h))
              case Ok(s) => res == Ok(()) && State() == s
              case Err(e) => res == Err(e)
    {
      if h.tradingDay != day {
        return Err(HEADER_MISMATCH);
      }
      if h.channelId < 0 || h.channelId != ch.id {
        return Err(ChannelIdMismatch);
      }
      if h.bizIndex < 0 {
        return Err(HEADER_MISMATCH);
      }
      if h.bizIndex < expected {
        return Err(if expected - h.bizIndex == 1 then BizIndexDuplicate else BizIndexRegression);
      }
      if h.bizIndex > expected || h.bizIndex > ch.last {
        return Err(BizIndexGap);
      }
      if first.None? {
        first := Some(h.bizIndex);
      }
      last := Some(h.bizIndex);
      minNano := Some(if minNano.Some? then Min(minNano.value, h.receiveNano) else h.receiveNano);
      maxNano := Some(if maxNano.Some? then Max(maxNano.value, h.receiveNano) else h.receiveNano);
      if h.kind.Order? {
        orders := SaturatingAdd64(orders, 1);
      } else {
        trades := SaturatingAdd64(trades, 1);
      }
      rows := SaturatingAdd64(rows, 1);
      if expected + 1 >= U64_LIMIT {
        return Err(BizIndexGap);
      }
      expected := expected + 1;
      return Ok(());
    }

    /** The visitor: one delivered row group. */
    method Visit(day: U32, ch: Channel, width: U32, g: Group) returns (res: Result<(), ScanError>)
      requires width > 0
      modifies this
      ensures match ScanGroup(day, ch, width, old(State()), g)
              case Ok(s) => res == Ok(()) && State() == s
              case Err(e) => res == Err(e)
    {
      var shape := Misshapen(width, g);
      if shape.Some? {
        return Err(shape.value);
      }
      ghost var ds := GroupDecoded(width, g);
      for i := 0 to g.rowCount
        invariant ScanRecords(day, ch, old(State()), ds[..i]) == Ok(State())
      {
        RecordsStep(day, ch, old(State()), ds, i);
        var step := Record(day, ch, RecordAt(width, g, i));
        if step.Err? {
          return step;
        }
      }
      assert ds[..g.rowCount] == ds;
      return Ok(());
    }
  }

  /** `scan_payload_headers`, over the row groups in the order the visitor gets them. */
  method ScanPayloadHeaders(day: U32, ch: Channel, width: U32, gs: seq<Group>) returns (res: Result<Totals, ScanError>)
    requires width > 0
    ensures res == ScanColumns(day, ch, width, gs)
  {
    var scan := new HeaderScan(ch);
    for k := 0 to |gs|
      invariant ScanAll(day, ch, width, gs[..k]) == Ok(scan.State())
    {
      assert gs[..k + 1][..k] == gs[..k];
      var step := scan.Visit(day, ch, width, gs[k]);
      if step.Err? {
        AllStep(day, ch, width, gs, k + 1);
        return Err(step.error);
      }
    }
    assert gs[..|gs|] == gs;
    return ScanEnd(ch, scan.State());
  }

  /**
   The v1 certifier from the payload scan on: the scanned rows and range must be those
   of the manifest entry.
   */
  method CertifyChannel(day: U32, ch: Channel, rowCount: U64, width: U32, gs: seq<Group>)
    returns (res: Result<Totals, ScanError>)
    requires width > 0
    ensures match ScanColumns(day, ch, width, gs)
            case Err(e) => res == Err(e)
            case Ok(t) =>
              && (res == Err(RowCountMismatch) <==> t.rows != rowCount)
              && (res == Err(BizIndexGap) <==> t.rows == rowCount && (t.first != Some(ch.first) || t.last != Some(ch.last)))
              && (res == Ok(t) <==> t.rows == rowCount && t.first == Some(ch.first) && t.last == Some(ch.last))
              && res == CheckTotals(ExpectChannel(day, ch), rowCount, t)
  {
    res := ScanPayloadHeaders(day, ch, width, gs);
    if res.Err? {
      return;
    }
    var t := res.value;
    if t.rows != rowCount {
      return Err(RowCountMismatch);
    }
    if t.first != Some(ch.first) || t.last != Some(ch.last) {
      return Err(BizIndexGap);
    }
  }
}
