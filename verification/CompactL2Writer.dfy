/** The record and batch writers as they run: byte buffers filled in place. */
module CompactL2Writer {
  import opened Basics
  import opened Bytes
  import opened Slices
  import opened CompactL2
  import opened CompactL2Batch

  /** `buf[at..at + |part|].copy_from_slice(part)`. */
  method Store(buf: array<Byte>, at: nat, part: seq<Byte>)
    requires at + |part| <= buf.Length
    modifies buf
    ensures buf[..at + |part|] == old(buf[..at]) + part
    ensures buf[at + |part|..] == old(buf[at + |part|..])
    ensures forall k :: at + |part| <= k < buf.Length ==> buf[k] == old(buf[k])
  {
    for i := 0 to |part|
      invariant buf[..at + i] == old(buf[..at]) + part[..i]
      invariant buf[at + i..] == old(buf[at + i..])
    {
      buf[at + i] := part[i];
    }
  }

  /** Everything from `at` on is still zero. */
  ghost predicate ZeroFrom(buf: seq<Byte>, at: nat) { forall k :: at <= k < |buf| ==> buf[k] == 0 }

  /** Leaving a gap in a zeroed tail: the prefix grows by zeros. */
  lemma ZeroGap(buf: seq<Byte>, at: nat, n: nat)
    requires at + n <= |buf| && ZeroFrom(buf, at)
    ensures buf[..at + n] == buf[..at] + Zeros(n)
  {
  }

  method StoreEnvelope(h: Header, record: array<Byte>)
    requires record.Length == 168
    modifies record
    ensures record[..16] == Envelope(h) && record[16..] == old(record[16..])
  {
    Store(record, 0, MAGIC);
    Store(record, 4, Put16(SCHEMA_VERSION));
    Store(record, 6, Put16(HEADER_LEN));
    Store(record, 8, Put16(RECORD_LEN));
    Store(record, 10, [h.kind.Code(), h.sourceFamily, h.exchangeId, 0]);
    Store(record, 14, Put16(0));
  }

  method StoreScalars(h: Header, record: array<Byte>)
    requires record.Length == 168
    modifies record
    ensures record[..56] == old(record[..16]) + Scalars(h) && record[56..] == old(record[56..])
  {
    ghost var p := record[..16];
    Store(record, 16, Put32(h.tradingDay));
    Store(record, 20, PutI32(h.channelId));
    Store(record, 24, PutI64(h.bizIndex));
    Store(record, 32, Put64(h.sourceOrdinal));
    Store(record, 40, PutI64(h.receiveNano));
    Store(record, 48, PutI64(h.exchangeTime));
    ghost var a, b, c := Put32(h.tradingDay), PutI32(h.channelId), PutI64(h.bizIndex);
    ghost var d, e, f := Put64(h.sourceOrdinal), PutI64(h.receiveNano), PutI64(h.exchangeTime);
    assert p + a + b + c + d + e + f == p + (a + b + c + d + e + f);
    assert forall k :: 56 <= k < record.Length ==> record[k] == old(record[k]);
  }

  method StoreWords(words: BodyWords, record: array<Byte>)
    requires record.Length == 168
    modifies record
    ensures record[..] == old(record[..88]) + Words(words)
  {
    ghost var parts := WordParts(words);
    for slot := 0 to 10
      invariant record[..88 + 8 * slot] == old(record[..88]) + Flatten(parts[..slot])
    {
      Store(record, 88 + 8 * slot, PutI64(words[slot]));
      assert parts[..slot + 1][..slot] == parts[..slot];
    }
    assert parts[..10] == parts;
    assert record[..168] == record[..];
  }

  /** `CompactL2PhysicalV2Record::to_fixed_binary_v1`. */
  method ToFixedBinaryV1(r: Record) returns (res: Result<seq<Byte>, Error>)
    ensures res == ToV1(r)
  {
    var record := new Byte[168](_ => 0);
    StoreEnvelope(r.header, record);
    StoreScalars(r.header, record);
    Store(record, 56, r.symbol);
    Store(record, 65, Zeros(15));
    Store(record, 80, r.bodyBytes);
    Store(record, 87, [0]);
    ghost var p := Envelope(r.header) + Scalars(r.header);
    assert p + r.symbol + Zeros(15) + r.bodyBytes + [0] == p + Text(r);
    StoreWords(r.words, record);
    var check := DecodeHeader(record[..]);
    if check.Err? {
      return Err(check.error);
    }
    return Ok(record[..]);
  }

  method RowEnvelopeInto(v: BatchView, row: nat, out: array<Byte>)
    requires LanesValid(v) && row < v.rowCount && RowFits(v, row)
    requires out.Length == 168 && ZeroFrom(out[..], 0)
    modifies out
    ensures out[..16] == RowEnvelope(v, row) && ZeroFrom(out[..], 16)
  {
    Store(out, 0, MAGIC);
    Store(out, 4, Put16(SCHEMA_VERSION));
    Store(out, 6, Put16(HEADER_LEN));
    Store(out, 8, Put16(RECORD_LEN));
    Store(out, 10, [v.recordKind[row]] + v.headerBytes[2 * row..2 * row + 2]);
    ZeroGap(out[..], 13, 3);
  }

  method RowScalarsInto(v: BatchView, row: nat, out: array<Byte>)
    requires LanesValid(v) && row < v.rowCount && RowFits(v, row)
    requires out.Length == 168 && ZeroFrom(out[..], 16)
    modifies out
    ensures out[..56] == old(out[..16]) + RowScalars(v, row) && ZeroFrom(out[..], 56)
  {
    ghost var p := out[..16];
    Store(out, 16, Put32(v.dayKey[row]));
    Store(out, 20, PutI32(v.channelId[row]));
    Store(out, 24, PutI64(v.bizIndex[row]));
    Store(out, 32, Put64(v.sourceOrdinal[row]));
    Store(out, 40, PutI64(v.receiveNano[row]));
    Store(out, 48, PutI64(v.exchangeTime[row]));
    ghost var a, b, c := Put32(v.dayKey[row]), PutI32(v.channelId[row]), PutI64(v.bizIndex[row]);
    ghost var d, e, f := Put64(v.sourceOrdinal[row]), PutI64(v.receiveNano[row]), PutI64(v.exchangeTime[row]);
    assert p + a + b + c + d + e + f == p + (a + b + c + d + e + f);
  }

  method RowTextInto(v: BatchView, row: nat, out: array<Byte>)
    requires LanesValid(v) && row < v.rowCount
    requires out.Length == 168 && ZeroFrom(out[..], 56)
    modifies out
    ensures out[..88] == old(out[..56]) + RowText(v, row)
  {
    ghost var p := out[..56];
    Store(out, 56, v.symbol[9 * row..9 * row + 9]);
    ZeroGap(out[..], 65, 15);
    Store(out, 80, v.bodyBytes[7 * row..7 * row + 7]);
    ZeroGap(out[..], 87, 1);
    ghost var a, b := v.symbol[9 * row..9 * row + 9], v.bodyBytes[7 * row..7 * row + 7];
    assert p + a + Zeros(15) + b + Zeros(1) == p + (a + Zeros(15) + b + Zeros(1));
  }

  /** `write_fixed_binary_v1_payload_unchecked`: one row into a caller's buffer. */
  method WriteRow(v: BatchView, row: nat, out: array<Byte>) returns (res: Result<(), Error>)
    requires LanesValid(v)
    modifies out
    ensures row >= v.rowCount ==> res == Err(HeaderMismatch)
    ensures row < v.rowCount && out.Length != 168 ==> res == Err(WidthMismatch)
    ensures row < v.rowCount && out.Length == 168 && RowPayload(v, row).Err? ==> res == Err(RowPayload(v, row).error)
    ensures row < v.rowCount && out.Length == 168 && RowPayload(v, row).Ok? ==>
              res == Ok(()) && out[..] == RowPayload(v, row).value
  {
    if row >= v.rowCount {
      return Err(HeaderMismatch);
    }
    if out.Length != 168 {
      return Err(WidthMismatch);
    }
    for i := 0 to 168
      invariant forall k :: 0 <= k < i ==> out[k] == 0
    {
      out[i] := 0;
    }
    if !RowFits(v, row) {
      return Err(HeaderMismatch);
    }
    RowEnvelopeInto(v, row, out);
    RowScalarsInto(v, row, out);
    RowTextInto(v, row, out);
    ghost var e, s, t := RowEnvelope(v, row), RowScalars(v, row), RowText(v, row);
    assert out[..88] == e + s + t;
    StoreWords(RowWords(v, row), out);
    assert out[..] == RawRow(v, row);
    var check := DecodeHeader(out[..]);
    if check.Err? {
      return Err(check.error);
    }
    return Ok(());
  }

  /** The row writer applied to its freshly zeroed part of the resized vector. */
  method WriteResizedRow(v: BatchView, row: nat) returns (res: Result<(), Error>, slot: seq<Byte>)
    requires LanesValid(v) && row < v.rowCount
    ensures |slot| == 168
    ensures RowPayloads(v)[row] == match res case Ok(_) => Ok(slot) case Err(e) => Err(e)
  {
    var buf := new Byte[168](_ => 0);
    res := WriteRow(v, row, buf);
    slot := buf[..];
  }

  /** The lengths `append_fixed_binary_v1_payloads` computes fit `usize`. */
  predicate LengthFits(v: BatchView, start: nat) { start + 168 * v.rowCount < U64_LIMIT }

  /**
   `append_fixed_binary_v1_payloads`: the vector grows by every row's payload. A
   failing row leaves the vector already resized, its old contents untouched.
   */
  method AppendPayloads(v: BatchView, out0: seq<Byte>) returns (res: Result<(), Error>, out: seq<Byte>)
    requires |out0| < U64_LIMIT
    ensures !LanesValid(v) || !LengthFits(v, |out0|) ==> res == Err(HeaderMismatch) && out == out0
    ensures LanesValid(v) && LengthFits(v, |out0|) ==> |out| == |out0| + 168 * v.rowCount && out0 <= out
    ensures LanesValid(v) && LengthFits(v, |out0|) && BatchPayload(v).Err? ==> res == Err(BatchPayload(v).error)
    ensures LanesValid(v) && LengthFits(v, |out0|) && BatchPayload(v).Ok? ==>
              res == Ok(()) && out == out0 + BatchPayload(v).value
  {
    if !LanesValid(v) || !LengthFits(v, |out0|) {
      return Err(HeaderMismatch), out0;
    }
    res, out := AppendRows(v, out0);
  }

  method AppendRows(v: BatchView, out0: seq<Byte>) returns (res: Result<(), Error>, out: seq<Byte>)
    requires LanesValid(v)
    ensures |out| == |out0| + 168 * v.rowCount && out0 <= out
    ensures match Collect(RowPayloads(v))
            case Ok(parts) => res == Ok(()) && out == out0 + Flatten(parts)
            case Err(e) => res == Err(e)
  {
    out := out0;
    ghost var rs := RowPayloads(v);
    ghost var parts: seq<seq<Byte>> := [];
    var row := 0;
    while row < v.rowCount
      invariant row == |parts| <= v.rowCount && Written(rs, parts)
      invariant |out| == |out0| + 168 * row && out == out0 + Flatten(parts)
    {
      var wrote, slot := WriteResizedRow(v, row);
      if wrote.Err? {
        FirstFailure(rs, parts);
        out := out + slot + Zeros(168 * (v.rowCount - row - 1));
        return Err(wrote.error), out;
      }
      WrittenNext(rs, parts, slot, out0);
      out := out + slot;
      parts := parts + [slot];
      row := row + 1;
    }
    AllWritten(rs, parts);
    res := Ok(());
  }

  /** The first rows succeeded with these payloads. */
  ghost predicate Written<T, E>(rs: seq<Result<T, E>>, parts: seq<T>) {
    |parts| <= |rs| && Collect(rs[..|parts|]) == Ok(parts)
  }

  lemma WrittenNext<T, E>(rs: seq<Result<seq<T>, E>>, parts: seq<seq<T>>, x: seq<T>, p: seq<T>)
    requires |parts| < |rs| && Written(rs, parts) && rs[|parts|] == Ok(x)
    ensures Written(rs, parts + [x]) && p + Flatten(parts + [x]) == p + Flatten(parts) + x
  {
    WrittenStep(rs, parts, x);
    FlattenStep(parts, x, p);
  }

  lemma WrittenStep<T, E>(rs: seq<Result<T, E>>, parts: seq<T>, x: T)
    requires |parts| < |rs| && Written(rs, parts) && rs[|parts|] == Ok(x)
    ensures Written(rs, parts + [x])
  {
    var k := |parts|;
    assert rs[..k + 1][..k] == rs[..k];
  }

  lemma FlattenStep<T>(parts: seq<seq<T>>, x: seq<T>, p: seq<T>)
    ensures p + Flatten(parts + [x]) == p + Flatten(parts) + x
  {
    assert (parts + [x])[..|parts|] == parts;
    Assoc(p, Flatten(parts), x);
  }

  lemma AllWritten<T, E>(rs: seq<Result<T, E>>, parts: seq<T>)
    requires |parts| == |rs| && Written(rs, parts)
    ensures Collect(rs) == Ok(parts)
  {
    assert rs[..|rs|] == rs;
  }

  /** Collecting stops at the first failing element. */
  lemma {:induction false} FirstFailure<T, E>(rs: seq<Result<T, E>>, parts: seq<T>)
    requires |parts| < |rs| && Written(rs, parts) && rs[|parts|].Err?
    ensures Collect(rs) == Err(rs[|parts|].error)
    decreases |rs|
  {
    var n := |rs| - 1;
    if |parts| < n {
      assert rs[..n][..|parts|] == rs[..|parts|];
      FirstFailure(rs[..n], parts);
    }
  }
}
