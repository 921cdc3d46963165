/**
 The continuity scan of the v1 certifier, over fixed-binary payload headers, and its
 agreement with the lane scan.
 */
module PayloadScan {
  import opened Basics
  import opened Bytes
  import opened ContinuityScan
  import C = CompactL2

  /** The part of a manifest channel entry the scan checks against. */
  datatype Channel = Channel(id: U32, first: U64, last: U64)

  datatype HeaderState = HeaderState(totals: Totals, expected: U64)

  type Decoded = Result<C.Header, C.Error>

  /** One record of `scan_payload_headers`. */
  function ScanRecord(day: U32, ch: Channel, s: HeaderState, d: Decoded): Result<HeaderState, ScanError> {
    match d
    case Err(e) => Err(Payload(e))
    case Ok(h) =>
      if h.tradingDay != day then Err(HEADER_MISMATCH)
      else if h.channelId != ch.id then Err(ChannelIdMismatch)
      else if h.bizIndex < 0 then Err(HEADER_MISMATCH)
      else if h.bizIndex != s.expected then Err(Misplaced(h.bizIndex, s.expected))
      else if h.bizIndex > ch.last then Err(BizIndexGap)
      else if s.expected + 1 >= U64_LIMIT then Err(BizIndexGap)
      else Ok(HeaderState(Observe(s.totals, h.bizIndex, h.receiveNano, h.kind.Order?), s.expected + 1))
  }

  function ScanRecords(day: U32, ch: Channel, s: HeaderState, ds: seq<Decoded>): Result<HeaderState, ScanError> {
    if ds == [] then Ok(s)
    else
      var before :- ScanRecords(day, ch, s, ds[..|ds| - 1]);
      ScanRecord(day, ch, before, ds[|ds| - 1])
  }

  /** The check after the last record. */
  function ScanEnd(ch: Channel, s: HeaderState): Result<Totals, ScanError> {
    if s.expected != SaturatingAdd64(ch.last, 1) then Err(BizIndexGap) else Ok(s.totals)
  }

  function ScanPayloads(day: U32, ch: Channel, ds: seq<Decoded>): Result<Totals, ScanError> {
    var s :- ScanRecords(day, ch, HeaderState(NO_ROWS, ch.first), ds);
    ScanEnd(ch, s)
  }

  lemma {:induction false} RecordsAppend(day: U32, ch: Channel, s: HeaderState, a: seq<Decoded>, b: seq<Decoded>)
    ensures ScanRecords(day, ch, s, a + b) ==
            match ScanRecords(day, ch, s, a) case Ok(mid) => ScanRecords(day, ch, mid, b) case Err(e) => Err(e)
    decreases |b|
  {
    if b == [] {
      assert a + b == a;
    } else {
      var n := |b| - 1;
      RecordsAppend(day, ch, s, a, b[..n]);
      assert (a + b)[..|a + b| - 1] == a + b[..n];
    }
  }

  // ---------------------------------------------------------------- exactness

  /** The scalar lanes of a header; the day's 32 bits are read signed. */
  function LaneRow(h: C.Header): Row {
    Row(if h.tradingDay < 0x8000_0000 then h.tradingDay else h.tradingDay - 0x1_0000_0000,
        h.channelId, h.bizIndex, h.receiveNano, h.kind.Code())
  }

  ghost function LaneRows(ds: seq<Decoded>): (rows: seq<Row>)
    requires forall i :: 0 <= i < |ds| ==> ds[i].Ok?
    ensures |rows| == |ds|
  {
    seq(|ds|, i requires 0 <= i < |ds| => LaneRow(ds[i].value))
  }

  /** A record in its place: decoded, of the day and channel, next in the run, inside the range. */
  ghost predicate InPlace(day: U32, ch: Channel, d: Decoded, i: nat) {
    && d.Ok? && d.value.tradingDay == day && d.value.channelId == ch.id
    && d.value.bizIndex == ch.first + i && d.value.bizIndex <= ch.last
  }

  ghost predicate AllInPlace(day: U32, ch: Channel, ds: seq<Decoded>) {
    forall i :: 0 <= i < |ds| ==> InPlace(day, ch, ds[i], i)
  }

  ghost predicate Running(ch: Channel, ds: seq<Decoded>, s: HeaderState) {
    && (forall i :: 0 <= i < |ds| ==> ds[i].Ok? && 0 <= ds[i].value.bizIndex)
    && s.totals == Tally(LaneRows(ds)) && s.expected == ch.first + |ds|
  }

  lemma RecordScanned(day: U32, ch: Channel, ds: seq<Decoded>, d: Decoded, s: HeaderState)
    requires Running(ch, ds, s)
    ensures ScanRecord(day, ch, s, d).Ok? <==> InPlace(day, ch, d, |ds|)
    ensures InPlace(day, ch, d, |ds|) ==> Running(ch, ds + [d], ScanRecord(day, ch, s, d).value)
  {
    if InPlace(day, ch, d, |ds|) {
      var all := ds + [d];
      forall i | 0 <= i < |all| ensures all[i].Ok? && 0 <= all[i].value.bizIndex {
      }
      assert LaneRows(all)[..|ds|] == LaneRows(ds);
    }
  }

  lemma {:induction false} RecordsExact(day: U32, ch: Channel, ds: seq<Decoded>)
    ensures var res := ScanRecords(day, ch, HeaderState(NO_ROWS, ch.first), ds);
            && (res.Ok? <==> AllInPlace(day, ch, ds))
            && (res.Ok? ==> Running(ch, ds, res.value))
  {
    if ds != [] {
      var n := |ds| - 1;
      RecordsExact(day, ch, ds[..n]);
      var before := ScanRecords(day, ch, HeaderState(NO_ROWS, ch.first), ds[..n]);
      if before.Ok? {
        RecordScanned(day, ch, ds[..n], ds[n], before.value);
        assert ds == ds[..n] + [ds[n]];
      }
    }
  }

  /**
   The header scan accepts exactly the record lists that run over the channel's whole
   range in order, and its report is true of them.
   */
  lemma PayloadScanExact(day: U32, ch: Channel, ds: seq<Decoded>)
    ensures ScanPayloads(day, ch, ds).Ok? <==>
            AllInPlace(day, ch, ds) && ch.first + |ds| == SaturatingAdd64(ch.last, 1)
    ensures ScanPayloads(day, ch, ds).Ok? ==>
              Describes(ScanPayloads(day, ch, ds).value, LaneRows(ds))
  {
    RecordsExact(day, ch, ds);
    if ScanPayloads(day, ch, ds).Ok? {
      TallyDescribes(LaneRows(ds));
    }
  }

  // ---------------------------------------------------------------- agreement

  /** The checks both certifiers make on the scanned totals: row count, then first and last index. */
  function CheckTotals(o: Expect, rowCount: U64, t: Totals): Result<Totals, ScanError> {
    if t.rows != rowCount then Err(RowCountMismatch)
    else if o.first.Some? && t.first != o.first then Err(BizIndexGap)
    else if o.last.Some? && t.last != o.last then Err(BizIndexGap)
    else Ok(t)
  }

  /** The v1 certifier on decoded records, against a manifest entry. */
  function CertifyRecords(day: U32, ch: Channel, rowCount: U64, ds: seq<Decoded>): Result<Totals, ScanError> {
    var t :- ScanPayloads(day, ch, ds);
    CheckTotals(ExpectChannel(day, ch), rowCount, t)
  }

  /** The v2 certifier on lanes. */
  function CertifyLanes(o: Expect, rowCount: U64, rows: seq<Row>): Result<Totals, ScanError> {
    var s :- ScanRows(o, FRESH, rows);
    CheckTotals(o, rowCount, s.totals)
  }

  /** The expectations that state a channel's day, identity and range. */
  function ExpectChannel(day: U32, ch: Channel): Expect {
    Expect(Some(day), Some(ch.id), Some(ch.first), Some(ch.last))
  }

  ghost predicate DaysFit(ds: seq<Decoded>) {
    forall i :: 0 <= i < |ds| ==> ds[i].Ok? && ds[i].value.tradingDay < 0x8000_0000
  }

  lemma InPlaceIsExpected(day: U32, ch: Channel, d: Decoded, i: nat)
    requires d.Ok? && d.value.tradingDay < 0x8000_0000
    ensures InPlace(day, ch, d, i) <==>
            RowExpected(ExpectChannel(day, ch), LaneRow(d.value)) && LaneRow(d.value).biz == ch.first + i && d.value.bizIndex <= ch.last
  {
  }

  lemma PlacesAgree(day: U32, ch: Channel, ds: seq<Decoded>)
    requires DaysFit(ds)
    ensures AllInPlace(day, ch, ds) <==>
            && Continuous(ExpectChannel(day, ch), ch.first, LaneRows(ds))
            && forall i :: 0 <= i < |ds| ==> ds[i].value.bizIndex <= ch.last
  {
    var o, rows := ExpectChannel(day, ch), LaneRows(ds);
    forall i | 0 <= i < |ds|
      ensures InPlace(day, ch, ds[i], i) <==>
              RowExpected(o, rows[i]) && rows[i].biz == ch.first + i && ds[i].value.bizIndex <= ch.last
    {
      InPlaceIsExpected(day, ch, ds[i], i);
    }
  }

  /** The v1 certifier accepts exactly the nonempty runs that fill the stated range and count. */
  lemma RecordsCertifiedIff(day: U32, ch: Channel, rowCount: U64, ds: seq<Decoded>)
    ensures CertifyRecords(day, ch, rowCount, ds).Ok? <==>
            ds != [] && AllInPlace(day, ch, ds) && |ds| == rowCount == ch.last - ch.first + 1
    ensures CertifyRecords(day, ch, rowCount, ds).Ok? ==>
              CertifyRecords(day, ch, rowCount, ds) == Ok(Tally(LaneRows(ds)))
  {
    RecordsExact(day, ch, ds);
    PayloadScanExact(day, ch, ds);
    if AllInPlace(day, ch, ds) {
      RunFits(day, ch, ds);
      TallyDescribes(LaneRows(ds));
      if ds != [] {
        var n := |ds| - 1;
        assert InPlace(day, ch, ds[0], 0) && InPlace(day, ch, ds[n], n);
        assert LaneRows(ds)[0].biz == ch.first && LaneRows(ds)[n].biz == ch.first + n;
      }
    }
  }

  lemma RunFits(day: U32, ch: Channel, ds: seq<Decoded>)
    requires AllInPlace(day, ch, ds)
    ensures ch.first + |ds| <= ch.last + 1 || ds == []
    ensures |ds| < U64_LIMIT && (ds != [] ==> ch.first + |ds| <= 0x8000_0000_0000_0000)
    ensures forall i :: 0 <= i < |ds| ==> 0 <= LaneRows(ds)[i].biz && (LaneRows(ds)[i].kind == 1 || LaneRows(ds)[i].kind == 2)
  {
    if ds != [] {
      assert InPlace(day, ch, ds[|ds| - 1], |ds| - 1);
    }
    forall i | 0 <= i < |ds| ensures 0 <= LaneRows(ds)[i].biz && (LaneRows(ds)[i].kind == 1 || LaneRows(ds)[i].kind == 2) {
      assert InPlace(day, ch, ds[i], i);
    }
  }

  /** The v2 certifier with both edges stated accepts exactly the nonempty runs between them. */
  lemma LanesCertifiedIff(o: Expect, rowCount: U64, rows: seq<Row>)
    requires o.first.Some? && o.last.Some?
    ensures CertifyLanes(o, rowCount, rows).Ok? <==>
            && rows != [] && Continuous(o, o.first.value, rows)
            && |rows| == rowCount == o.last.value - o.first.value + 1
    ensures CertifyLanes(o, rowCount, rows).Ok? ==>
              (forall i :: 0 <= i < |rows| ==> 0 <= rows[i].biz) && CertifyLanes(o, rowCount, rows) == Ok(Tally(rows))
  {
    ScanExact(o, rows);
    ScanExplained(o, rows);
    if rows != [] && Continuous(o, o.first.value, rows) {
      assert rows[0].biz == o.first.value && rows[|rows| - 1].biz == o.first.value + |rows| - 1;
    }
  }

  /**
   On any list of decoded records whose days fit the lane, the two certifiers reach the
   same verdict and the same report, and acceptance forces the row count.
   */
  lemma CertifiersAgree(day: U32, ch: Channel, rowCount: U64, ds: seq<Decoded>)
    requires DaysFit(ds)
    ensures var v1 := CertifyRecords(day, ch, rowCount, ds);
            var v2 := CertifyLanes(ExpectChannel(day, ch), rowCount, LaneRows(ds));
            && (v1.Ok? <==> v2.Ok?)
            && (v1.Ok? ==> v1 == v2 && v1.value.rows == |ds| == rowCount == ch.last - ch.first + 1)
  {
    var o, rows := ExpectChannel(day, ch), LaneRows(ds);
    PlacesAgree(day, ch, ds);
    RecordsCertifiedIff(day, ch, rowCount, ds);
    LanesCertifiedIff(o, rowCount, rows);
    if CertifyLanes(o, rowCount, rows).Ok? {
      forall i | 0 <= i < |ds| ensures ds[i].value.bizIndex <= ch.last {
        assert rows[i].biz == ch.first + i;
      }
    }
  }
}
