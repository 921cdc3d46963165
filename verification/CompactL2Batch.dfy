/**
 The columnar side of the compact-L2 layout: lanes of a row-group batch, and the
 row writer that rebuilds fixed-binary payloads from them.
 */
module CompactL2Batch {
  import opened Basics
  import opened Bytes
  import opened Slices
  import opened CompactL2

  datatype BatchView = BatchView(
    rowCount: nat,
    dayKey: seq<I32>,
    channelId: seq<I64>,
    bizIndex: seq<I64>,
    receiveNano: seq<I64>,
    sourceOrdinal: seq<I64>,
    recordKind: seq<I32>,
    headerBytes: seq<Byte>,
    exchangeTime: seq<I64>,
    symbol: seq<Byte>,
    bodyBytes: seq<Byte>,
    words: seq<seq<I64>>)

  /** Every lane has its physical length. */
  predicate LanesValid(v: BatchView) {
    && |v.dayKey| == |v.channelId| == |v.bizIndex| == |v.receiveNano| == |v.sourceOrdinal| == |v.recordKind| == v.rowCount
    && |v.headerBytes| == 2 * v.rowCount
    && |v.exchangeTime| == v.rowCount
    && |v.symbol| == 9 * v.rowCount
    && |v.bodyBytes| == 7 * v.rowCount
    && |v.words| == 10
    && (forall i :: 0 <= i < 10 ==> |v.words[i]| == v.rowCount)
  }

  function RowWords(v: BatchView, row: nat): BodyWords
    requires LanesValid(v) && row < v.rowCount
  {
    seq(10, i requires 0 <= i < 10 => v.words[i][row])
  }

  /** The lanes of one row fit the record's field types. */
  predicate RowFits(v: BatchView, row: nat)
    requires LanesValid(v) && row < v.rowCount
  {
    && 0 <= v.recordKind[row] < 0x100
    && 0 <= v.dayKey[row]
    && -0x8000_0000 <= v.channelId[row] < 0x8000_0000
    && 0 <= v.sourceOrdinal[row]
  }

  /** Envelope bytes written from raw lanes; the gap stays zero. */
  function RowEnvelope(v: BatchView, row: nat): (b: seq<Byte>)
    requires LanesValid(v) && row < v.rowCount && RowFits(v, row)
    ensures |b| == 16
  {
    MAGIC + Put16(SCHEMA_VERSION) + Put16(HEADER_LEN) + Put16(RECORD_LEN)
    + ([v.recordKind[row]] + v.headerBytes[2 * row..2 * row + 2]) + Zeros(3)
  }

  function RowScalars(v: BatchView, row: nat): (b: seq<Byte>)
    requires LanesValid(v) && row < v.rowCount && RowFits(v, row)
    ensures |b| == 40
  {
    Put32(v.dayKey[row]) + PutI32(v.channelId[row]) + PutI64(v.bizIndex[row]) + Put64(v.sourceOrdinal[row])
    + PutI64(v.receiveNano[row]) + PutI64(v.exchangeTime[row])
  }

  function RowText(v: BatchView, row: nat): (b: seq<Byte>)
    requires LanesValid(v) && row < v.rowCount
    ensures |b| == 32
  {
    v.symbol[9 * row..9 * row + 9] + Zeros(15) + v.bodyBytes[7 * row..7 * row + 7] + Zeros(1)
  }

  /** The bytes the row writer leaves in its output buffer. */
  function RawRow(v: BatchView, row: nat): (b: seq<Byte>)
    requires LanesValid(v) && row < v.rowCount && RowFits(v, row)
    ensures |b| == 168
  {
    RowEnvelope(v, row) + RowScalars(v, row) + RowText(v, row) + Words(RowWords(v, row))
  }

  /** One row rebuilt from the lanes, checked by the header decoder. */
  function RowPayload(v: BatchView, row: nat): Result<seq<Byte>, Error>
    requires LanesValid(v) && row < v.rowCount
  {
    if !RowFits(v, row) then Err(HeaderMismatch)
    else
      var b := RawRow(v, row);
      var _ :- DecodeHeader(b);
      Ok(b)
  }

  /** The row as a typed record, when its kind and scalars are representable. */
  function RowRecord(v: BatchView, row: nat): Option<Record>
    requires LanesValid(v) && row < v.rowCount
  {
    if !RowFits(v, row) || !(1 <= v.recordKind[row] <= 2) then None
    else Some(Record(
      Header(if v.recordKind[row] == 1 then Order else Trade, v.headerBytes[2 * row], v.headerBytes[2 * row + 1],
             v.dayKey[row], v.channelId[row], v.bizIndex[row], v.sourceOrdinal[row],
             v.receiveNano[row], v.exchangeTime[row]),
      v.symbol[9 * row..9 * row + 9], v.bodyBytes[7 * row..7 * row + 7], RowWords(v, row)))
  }

  lemma EnvelopesAgree(v: BatchView, row: nat)
    requires LanesValid(v) && row < v.rowCount && RowRecord(v, row).Some?
    ensures RowEnvelope(v, row) == Envelope(RowRecord(v, row).value.header)
  {
    var h := RowRecord(v, row).value.header;
    var p := MAGIC + Put16(SCHEMA_VERSION) + Put16(HEADER_LEN) + Put16(RECORD_LEN);
    ZeroPut16();
    assert v.headerBytes[2 * row..2 * row + 2] == [h.sourceFamily, h.exchangeId];
    assert Zeros(3) == [0, 0, 0];
    assert ([v.recordKind[row]] + v.headerBytes[2 * row..2 * row + 2]) + Zeros(3)
        == [h.kind.Code(), h.sourceFamily, h.exchangeId, 0] + Put16(0);
    Assoc(p, [v.recordKind[row]] + v.headerBytes[2 * row..2 * row + 2], Zeros(3));
    Assoc(p, [h.kind.Code(), h.sourceFamily, h.exchangeId, 0], Put16(0));
  }

  lemma ZeroPut16()
    ensures Put16(0) == [0, 0]
  {
    assert LE(0, 2) == [0] + LE(0, 1);
    assert LE(0, 1) == [0] + LE(0, 0);
  }

  lemma Assoc<T>(a: seq<T>, b: seq<T>, c: seq<T>)
    ensures (a + b) + c == a + (b + c)
  {
  }

  /** The two independent writers produce the same bytes. */
  lemma RawRowIsEncode(v: BatchView, row: nat)
    requires LanesValid(v) && row < v.rowCount && RowRecord(v, row).Some?
    ensures RawRow(v, row) == Encode(RowRecord(v, row).value)
  {
    EnvelopesAgree(v, row);
    assert Zeros(1) == [0];
  }

  /** A kind that is neither order nor trade is refused by the decoder. */
  lemma BadKindRefused(v: BatchView, row: nat)
    requires LanesValid(v) && row < v.rowCount && RowFits(v, row) && !(1 <= v.recordKind[row] <= 2)
    ensures DecodeHeader(RawRow(v, row)) == Err(HeaderMismatch)
  {
    var b := RawRow(v, row);
    Parts4(RowEnvelope(v, row), RowScalars(v, row), RowText(v, row), Words(RowWords(v, row)));
    Parts6(MAGIC, Put16(SCHEMA_VERSION), Put16(HEADER_LEN), Put16(RECORD_LEN),
           [v.recordKind[row]] + v.headerBytes[2 * row..2 * row + 2], Zeros(3));
    BadKindDecoded(b, RowEnvelope(v, row), v.recordKind[row]);
  }

  lemma BadKindDecoded(b: seq<Byte>, e: seq<Byte>, kind: int)
    requires |b| == 168 && |e| == 16 && b[0..16] == e
    requires e[0..4] == MAGIC && e[4..6] == Put16(SCHEMA_VERSION) && e[6..8] == Put16(HEADER_LEN)
    requires e[8..10] == Put16(RECORD_LEN) && e[10] == kind && !(1 <= kind <= 2)
    ensures DecodeHeader(b) == Err(HeaderMismatch)
  {
    assert b[0..4] == e[0..4] && b[4..6] == e[4..6] && b[6..8] == e[6..8] && b[8..10] == e[8..10] && b[10] == e[10];
    GetPut16(SCHEMA_VERSION);
    GetPut16(HEADER_LEN);
    GetPut16(RECORD_LEN);
  }

  /** Batch reconstruction of a row is the record writer applied to that row's lanes. */
  lemma RowPayloadAgrees(v: BatchView, row: nat)
    requires LanesValid(v) && row < v.rowCount
    ensures RowPayload(v, row) ==
            match RowRecord(v, row) case Some(r) => ToV1(r) case None => Err(HeaderMismatch)
  {
    if RowRecord(v, row).Some? {
      RawRowIsEncode(v, row);
    } else if RowFits(v, row) {
      BadKindRefused(v, row);
    }
  }

  function RowPayloads(v: BatchView): (rs: seq<Result<seq<Byte>, Error>>)
    requires LanesValid(v)
    ensures |rs| == v.rowCount && forall i :: 0 <= i < |rs| ==> rs[i] == RowPayload(v, i)
  {
    seq(v.rowCount, i requires 0 <= i < v.rowCount => RowPayload(v, i))
  }

  /** The whole batch rebuilt, row after row, or the first failure. */
  function BatchPayload(v: BatchView): Result<seq<Byte>, Error> {
    if !LanesValid(v) then Err(HeaderMismatch)
    else
      match Collect(RowPayloads(v))
      case Err(e) => Err(e)
      case Ok(parts) => Ok(Flatten(parts))
  }

  // ---------------------------------------------------------------- splitting records into lanes

  /** Values of a record that the signed lanes can hold. */
  predicate FitsLanes(r: Record) {
    r.header.tradingDay < 0x8000_0000 && r.header.sourceOrdinal < 0x8000_0000_0000_0000
  }

  ghost predicate AllFitLanes(rs: seq<Record>) { forall i :: 0 <= i < |rs| ==> FitsLanes(rs[i]) }

  function DayLane(rs: seq<Record>): (lane: seq<I32>)
    requires AllFitLanes(rs)
    ensures |lane| == |rs| && forall i :: 0 <= i < |rs| ==> lane[i] == rs[i].header.tradingDay
  {
    if rs == [] then [] else
      assert FitsLanes(rs[|rs| - 1]);
      DayLane(rs[..|rs| - 1]) + [rs[|rs| - 1].header.tradingDay]
  }

  function OrdinalLane(rs: seq<Record>): (lane: seq<I64>)
    requires AllFitLanes(rs)
    ensures |lane| == |rs| && forall i :: 0 <= i < |rs| ==> lane[i] == rs[i].header.sourceOrdinal
  {
    if rs == [] then [] else
      assert FitsLanes(rs[|rs| - 1]);
      OrdinalLane(rs[..|rs| - 1]) + [rs[|rs| - 1].header.sourceOrdinal]
  }

  function HeaderLane(rs: seq<Record>): (parts: seq<seq<Byte>>)
    ensures |parts| == |rs| && AllWidth(parts, 2)
  {
    seq(|rs|, i requires 0 <= i < |rs| => [rs[i].header.sourceFamily, rs[i].header.exchangeId])
  }

  function SymbolLane(rs: seq<Record>): (parts: seq<seq<Byte>>)
    ensures |parts| == |rs| && AllWidth(parts, 9)
  {
    seq(|rs|, i requires 0 <= i < |rs| => rs[i].symbol)
  }

  function BodyLane(rs: seq<Record>): (parts: seq<seq<Byte>>)
    ensures |parts| == |rs| && AllWidth(parts, 7)
  {
    seq(|rs|, i requires 0 <= i < |rs| => rs[i].bodyBytes)
  }

  function WordLane(rs: seq<Record>, w: nat): (lane: seq<I64>)
    requires w < 10
    ensures |lane| == |rs|
  {
    seq(|rs|, i requires 0 <= i < |rs| => rs[i].words[w])
  }

  /** The lanes of a batch of records, row by row. */
  function LanesOfRecords(rs: seq<Record>): (v: BatchView)
    requires AllFitLanes(rs)
    ensures LanesValid(v) && v.rowCount == |rs|
  {
    FlattenWidth(HeaderLane(rs), 2);
    FlattenWidth(SymbolLane(rs), 9);
    FlattenWidth(BodyLane(rs), 7);
    BatchView(
      |rs|,
      DayLane(rs),
      seq(|rs|, i requires 0 <= i < |rs| => rs[i].header.channelId),
      seq(|rs|, i requires 0 <= i < |rs| => rs[i].header.bizIndex),
      seq(|rs|, i requires 0 <= i < |rs| => rs[i].header.receiveNano),
      OrdinalLane(rs),
      seq(|rs|, i requires 0 <= i < |rs| => rs[i].header.kind.Code()),
      Flatten(HeaderLane(rs)),
      seq(|rs|, i requires 0 <= i < |rs| => rs[i].header.exchangeTime),
      Flatten(SymbolLane(rs)),
      Flatten(BodyLane(rs)),
      seq(10, w requires 0 <= w < 10 => WordLane(rs, w)))
  }

  /** Each row of the lanes reads back as its record. */
  lemma RowOfRecords(rs: seq<Record>, row: nat)
    requires AllFitLanes(rs) && row < |rs|
    ensures RowRecord(LanesOfRecords(rs), row) == Some(rs[row])
  {
    var v := LanesOfRecords(rs);
    FlattenSlice(HeaderLane(rs), 2, row);
    FlattenSlice(SymbolLane(rs), 9, row);
    FlattenSlice(BodyLane(rs), 7, row);
    assert v.headerBytes[2 * row..2 * row + 2] == HeaderLane(rs)[row];
    assert v.headerBytes[2 * row] == v.headerBytes[2 * row..2 * row + 2][0];
    assert v.headerBytes[2 * row + 1] == v.headerBytes[2 * row..2 * row + 2][1];
    assert RowWords(v, row) == rs[row].words;
  }

  /** Payloads the decoder accepts and the signed lanes can hold. */
  ghost predicate Splittable(bs: seq<seq<Byte>>) {
    forall i :: 0 <= i < |bs| ==> FromV1(bs[i]).Ok? && FitsLanes(FromV1(bs[i]).value)
  }

  ghost function Records(bs: seq<seq<Byte>>): (rs: seq<Record>)
    requires Splittable(bs)
    ensures |rs| == |bs| && AllFitLanes(rs)
    ensures forall i :: 0 <= i < |bs| ==> rs[i] == FromV1(bs[i]).value
  {
    seq(|bs|, i requires 0 <= i < |bs| => FromV1(bs[i]).value)
  }

  lemma RebuildRow(bs: seq<seq<Byte>>, i: nat)
    requires Splittable(bs) && i < |bs|
    ensures RowPayload(LanesOfRecords(Records(bs)), i) == Ok(bs[i])
  {
    RowOfRecords(Records(bs), i);
    RowPayloadAgrees(LanesOfRecords(Records(bs)), i);
    RebuildOfSplit(bs[i]);
  }

  /** Payloads whose lanes are taken and rebuilt as a batch come back, in order, byte for byte. */
  lemma RebuildBatch(bs: seq<seq<Byte>>)
    requires Splittable(bs)
    ensures BatchPayload(LanesOfRecords(Records(bs))) == Ok(Flatten(bs))
  {
    var v := LanesOfRecords(Records(bs));
    var rs := RowPayloads(v);
    forall i | 0 <= i < |bs| ensures rs[i] == Ok(bs[i]) {
      RebuildRow(bs, i);
    }
    CollectOk(rs, bs);
  }
}
