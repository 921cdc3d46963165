/** The fixed-width records of the OCB metadata objects. */
module OcbRecords {
  import opened Basics
  import opened Bytes
  import opened OcbReader

  // ---------------------------------------------------------------- body references

  /** Body kinds by code; 7 is a column chunk, 10 a validity bitmap, 11 a key tuple. */
  type BodyKind = k: int | 0 <= k <= 12

  const ROOT: BodyKind := 1
  const COLUMN_CHUNK: BodyKind := 7
  const VALIDITY_BITMAP: BodyKind := 10
  const KEY_TUPLE: BodyKind := 11

  datatype ChecksumKind = NoChecksum | Crc32c {
    function Code(): U16 { if NoChecksum? then 0 else 1 }
  }

  datatype BodyRef = BodyRef(
    offset: U64, length: U64, kind: BodyKind, flags: U16,
    checksumKind: ChecksumKind, reserved0: U16, checksum: U32, reserved1: U32)
  {
    predicate IsNull() { offset == 0 && length == 0 && kind == 0 }
  }

  function TakePlace(b: seq<Byte>): (r: Taken<(U64, U64, BodyKind, U16)>)
    ensures r.Ok? ==> |b| >= 20 && r.value.1 == b[20..]
  {
    var offset :- Take64(b);
    var length :- Take64(offset.1);
    var kind :- Take16(length.1);
    if kind.0 > 12 then Err(CorruptFile)
    else
      var flags :- Take16(kind.1);
      Ok(((offset.0, length.0, kind.0, flags.0), flags.1))
  }

  function TakeSum(b: seq<Byte>): (r: Taken<(ChecksumKind, U16, U32, U32)>)
    ensures r.Ok? ==> |b| >= 12 && r.value.1 == b[12..]
  {
    var sum :- Take16(b);
    if sum.0 > 1 then Err(CorruptFile)
    else
      var reserved0 :- Take16(sum.1);
      var checksum :- Take32(reserved0.1);
      var reserved1 :- Take32(checksum.1);
      Ok(((if sum.0 == 0 then NoChecksum else Crc32c, reserved0.0, checksum.0, reserved1.0), reserved1.1))
  }

  function TakeBodyRef(b: seq<Byte>): (r: Taken<BodyRef>)
    ensures r.Ok? ==> |b| >= 32 && r.value.1 == b[32..]
  {
    var place :- TakePlace(b);
    var sum :- TakeSum(place.1);
    Ok((BodyRef(place.0.0, place.0.1, place.0.2, place.0.3, sum.0.0, sum.0.1, sum.0.2, sum.0.3), sum.1))
  }

  // Each writer puts a record in front of `t`, so that records chain.

  function PutBodyRef(r: BodyRef, t: seq<Byte>): seq<Byte> { PutPlace(r, PutSum(r, t)) }

  function PutPlace(r: BodyRef, t: seq<Byte>): seq<Byte> {
    Put64(r.offset) + (Put64(r.length) + (Put16(r.kind) + (Put16(r.flags) + t)))
  }

  function PutSum(r: BodyRef, t: seq<Byte>): seq<Byte> {
    Put16(r.checksumKind.Code()) + (Put16(r.reserved0) + (Put32(r.checksum) + (Put32(r.reserved1) + t)))
  }

  lemma Join4(a: seq<Byte>, b: seq<Byte>, c: seq<Byte>, d: seq<Byte>, t: seq<Byte>, u: seq<Byte>)
    ensures a + (b + (c + (d + t))) + u == a + (b + (c + (d + (t + u))))
  {
    Regroup(d, t, u);
    Regroup(c, d + t, u);
    Regroup(b, c + (d + t), u);
    Regroup(a, b + (c + (d + t)), u);
  }

  lemma BodyRefExtends(r: BodyRef, t: seq<Byte>, u: seq<Byte>)
    ensures PutBodyRef(r, t) + u == PutBodyRef(r, t + u)
  {
    Join4(Put64(r.offset), Put64(r.length), Put16(r.kind), Put16(r.flags), PutSum(r, t), u);
    Join4(Put16(r.checksumKind.Code()), Put16(r.reserved0), Put32(r.checksum), Put32(r.reserved1), t, u);
  }

  lemma PlaceRead(r: BodyRef, t: seq<Byte>)
    ensures TakePlace(PutPlace(r, t)) == Ok(((r.offset, r.length, r.kind, r.flags), t))
  {
    TakePut64(r.offset, Put64(r.length) + (Put16(r.kind) + (Put16(r.flags) + t)));
    TakePut64(r.length, Put16(r.kind) + (Put16(r.flags) + t));
    TakePut16(r.kind, Put16(r.flags) + t);
    TakePut16(r.flags, t);
  }

  lemma SumRead(r: BodyRef, t: seq<Byte>)
    ensures TakeSum(PutSum(r, t)) == Ok(((r.checksumKind, r.reserved0, r.checksum, r.reserved1), t))
  {
    TakePut16(r.checksumKind.Code(), Put16(r.reserved0) + (Put32(r.checksum) + (Put32(r.reserved1) + t)));
    TakePut16(r.reserved0, Put32(r.checksum) + (Put32(r.reserved1) + t));
    TakePut32(r.checksum, Put32(r.reserved1) + t);
    TakePut32(r.reserved1, t);
  }

  lemma BodyRefRead(r: BodyRef, t: seq<Byte>)
    ensures TakeBodyRef(PutBodyRef(r, t)) == Ok((r, t))
  {
    PlaceRead(r, PutSum(r, t));
    SumRead(r, t);
  }

  lemma PlaceWritten(b: seq<Byte>, r: BodyRef)
    requires TakePlace(b).Ok? && TakePlace(b).value.0 == (r.offset, r.length, r.kind, r.flags)
    ensures b == PutPlace(r, TakePlace(b).value.1)
  {
    var offset := Take64(b).value;
    var length := Take64(offset.1).value;
    PutTake(b);
    PutTake(offset.1);
    PutTake(length.1);
    PutTake(Take16(length.1).value.1);
  }

  lemma SumWritten(b: seq<Byte>, r: BodyRef)
    requires TakeSum(b).Ok? && TakeSum(b).value.0 == (r.checksumKind, r.reserved0, r.checksum, r.reserved1)
    ensures b == PutSum(r, TakeSum(b).value.1)
  {
    var sum := Take16(b).value;
    var reserved0 := Take16(sum.1).value;
    PutTake(b);
    PutTake(sum.1);
    PutTake(reserved0.1);
    PutTake(Take32(reserved0.1).value.1);
  }

  /** A reference is exactly its bytes. */
  lemma BodyRefWritten(b: seq<Byte>)
    requires TakeBodyRef(b).Ok?
    ensures b == PutBodyRef(TakeBodyRef(b).value.0, TakeBodyRef(b).value.1)
  {
    var r := TakeBodyRef(b).value.0;
    PlaceWritten(b, r);
    SumWritten(TakePlace(b).value.1, r);
  }

  // ---------------------------------------------------------------- row groups

  datatype RowGroup = RowGroup(
    id: U32, flags: U32, baseRow: U64, rowCount: U64, chunkBegin: U64, chunkCount: U32,
    statBegin: U64, statCount: U32, firstKey: BodyRef, lastKey: BodyRef)

  function TakeRowGroup(b: seq<Byte>): (r: Taken<RowGroup>)
    ensures r.Ok? ==> |b| >= 120 && r.value.1 == b[120..]
  {
    var id :- Take32(b);
    var flags :- Take32(id.1);
    var baseRow :- Take64(flags.1);
    var rowCount :- Take64(baseRow.1);
    var chunkBegin :- Take64(rowCount.1);
    var chunkCount :- Take32(chunkBegin.1);
    var reserved0 :- Take32(chunkCount.1);
    var statBegin :- Take64(reserved0.1);
    var statCount :- Take32(statBegin.1);
    var reserved1 :- Take32(statCount.1);
    var firstKey :- TakeBodyRef(reserved1.1);
    var lastKey :- TakeBodyRef(firstKey.1);
    Ok((RowGroup(id.0, flags.0, baseRow.0, rowCount.0, chunkBegin.0, chunkCount.0,
                 statBegin.0, statCount.0, firstKey.0, lastKey.0), lastKey.1))
  }

  function PutRows(g: RowGroup, t: seq<Byte>): seq<Byte> {
    Put32(g.id) + (Put32(g.flags) + (Put64(g.baseRow) + (Put64(g.rowCount) + t)))
  }

  function PutChunks(g: RowGroup, reserved: U32, t: seq<Byte>): seq<Byte> {
    Put64(g.chunkBegin) + (Put32(g.chunkCount) + (Put32(reserved) + (Put64(g.statBegin) + t)))
  }

  /** A row group as stored: its fields and the two words a reader ignores. */
  datatype StoredRowGroup = StoredRowGroup(group: RowGroup, reserved0: U32, reserved1: U32)

  function PutStoredRowGroup(x: StoredRowGroup, t: seq<Byte>): seq<Byte> {
    PutRows(x.group, PutChunks(x.group, x.reserved0,
      Put32(x.group.statCount) + (Put32(x.reserved1) + PutBodyRef(x.group.firstKey, PutBodyRef(x.group.lastKey, t)))))
  }

  function PutRowGroup(g: RowGroup, t: seq<Byte>): seq<Byte> { PutStoredRowGroup(StoredRowGroup(g, 0, 0), t) }

  lemma RowGroupExtends(g: RowGroup, t: seq<Byte>, u: seq<Byte>)
    ensures PutRowGroup(g, t) + u == PutRowGroup(g, t + u)
  {
    StoredRowGroupExtends(StoredRowGroup(g, 0, 0), t, u);
  }

  lemma StoredRowGroupExtends(x: StoredRowGroup, t: seq<Byte>, u: seq<Byte>)
    ensures PutStoredRowGroup(x, t) + u == PutStoredRowGroup(x, t + u)
  {
    var g := x.group;
    var keys := PutBodyRef(g.firstKey, PutBodyRef(g.lastKey, t));
    var stats := Put32(g.statCount) + (Put32(x.reserved1) + keys);
    BodyRefExtends(g.lastKey, t, u);
    BodyRefExtends(g.firstKey, PutBodyRef(g.lastKey, t), u);
    Regroup(Put32(x.reserved1), keys, u);
    Regroup(Put32(g.statCount), Put32(x.reserved1) + keys, u);
    Join4(Put64(g.chunkBegin), Put32(g.chunkCount), Put32(x.reserved0), Put64(g.statBegin), stats, u);
    Join4(Put32(g.id), Put32(g.flags), Put64(g.baseRow), Put64(g.rowCount), PutChunks(g, x.reserved0, stats), u);
  }

  lemma RowGroupRead(g: RowGroup, t: seq<Byte>)
    ensures TakeRowGroup(PutRowGroup(g, t)) == Ok((g, t))
  {
    StoredRowGroupRead(StoredRowGroup(g, 0, 0), t);
  }

  lemma StoredRowGroupRead(x: StoredRowGroup, t: seq<Byte>)
    ensures TakeRowGroup(PutStoredRowGroup(x, t)) == Ok((x.group, t))
  {
    var g := x.group;
    var keys := PutBodyRef(g.firstKey, PutBodyRef(g.lastKey, t));
    var stats := Put32(g.statCount) + (Put32(x.reserved1) + keys);
    var e := Put64(g.statBegin) + stats;
    var d := Put32(x.reserved0) + e;
    var c := Put32(g.chunkCount) + d;
    var chunks := Put64(g.chunkBegin) + c;
    TakePut32(g.id, Put32(g.flags) + (Put64(g.baseRow) + (Put64(g.rowCount) + chunks)));
    TakePut32(g.flags, Put64(g.baseRow) + (Put64(g.rowCount) + chunks));
    TakePut64(g.baseRow, Put64(g.rowCount) + chunks);
    TakePut64(g.rowCount, chunks);
    TakePut64(g.chunkBegin, c);
    TakePut32(g.chunkCount, d);
    TakePut32(x.reserved0, e);
    TakePut64(g.statBegin, stats);
    TakePut32(g.statCount, Put32(x.reserved1) + keys);
    TakePut32(x.reserved1, keys);
    BodyRefRead(g.firstKey, PutBodyRef(g.lastKey, t));
    BodyRefRead(g.lastKey, t);
  }

  /** An accepted row group is its fields and some ignored words. */
  lemma RowGroupWritten(b: seq<Byte>) returns (x: StoredRowGroup)
    requires TakeRowGroup(b).Ok?
    ensures x.group == TakeRowGroup(b).value.0 && b == PutStoredRowGroup(x, TakeRowGroup(b).value.1)
  {
    var id := Take32(b).value;
    var flags := Take32(id.1).value;
    var baseRow := Take64(flags.1).value;
    var rowCount := Take64(baseRow.1).value;
    var chunkBegin := Take64(rowCount.1).value;
    var chunkCount := Take32(chunkBegin.1).value;
    var reserved0 := Take32(chunkCount.1).value;
    var statBegin := Take64(reserved0.1).value;
    var statCount := Take32(statBegin.1).value;
    var reserved1 := Take32(statCount.1).value;
    PutTake(b);
    PutTake(id.1);
    PutTake(flags.1);
    PutTake(baseRow.1);
    PutTake(rowCount.1);
    PutTake(chunkBegin.1);
    PutTake(chunkCount.1);
    PutTake(reserved0.1);
    PutTake(statBegin.1);
    PutTake(statCount.1);
    BodyRefWritten(reserved1.1);
    BodyRefWritten(TakeBodyRef(reserved1.1).value.1);
    x := StoredRowGroup(TakeRowGroup(b).value.0, reserved0.0, reserved1.0);
  }

  // ---------------------------------------------------------------- column chunks

  datatype PhysicalType = I32 | I64 | F32 | F64 | FixedBinary {
    function Code(): U16 {
      match this case I32 => 1 case I64 => 2 case F32 => 3 case F64 => 4 case FixedBinary => 5
    }
  }

  function TypeOf(code: U16): Result<PhysicalType, FormatError> {
    match code
    case 1 => Ok(PhysicalType.I32)
    case 2 => Ok(PhysicalType.I64)
    case 3 => Ok(F32)
    case 4 => Ok(F64)
    case 5 => Ok(FixedBinary)
    case _ => Err(CorruptFile)
  }

  lemma TypeOfCode(p: PhysicalType)
    ensures TypeOf(p.Code()) == Ok(p)
  {
  }

  datatype Codec = Uncompressed | Zstd {
    function Code(): U16 { if Uncompressed? then 0 else 1 }
  }

  function CodecOf(code: U16): Result<Codec, FormatError> {
    match code case 0 => Ok(Uncompressed) case 1 => Ok(Zstd) case _ => Err(UnsupportedFormat)
  }

  lemma CodecOfCode(c: Codec)
    ensures CodecOf(c.Code()) == Ok(c)
  {
  }

  datatype Chunk = Chunk(
    rowGroup: U32, column: U32, physicalType: PhysicalType, codec: Codec, flags: U32,
    value: BodyRef, validity: BodyRef, rowCount: U64, uncompressed: U64)

  function TakeChunk(b: seq<Byte>): (r: Taken<Chunk>)
    ensures r.Ok? ==> |b| >= 96 && r.value.1 == b[96..]
  {
    var rowGroup :- Take32(b);
    var column :- Take32(rowGroup.1);
    var typeCode :- Take16(column.1);
    var physicalType :- TypeOf(typeCode.0);
    var codecCode :- Take16(typeCode.1);
    var codec :- CodecOf(codecCode.0);
    var flags :- Take32(codecCode.1);
    var value :- TakeBodyRef(flags.1);
    var validity :- TakeBodyRef(value.1);
    var rowCount :- Take64(validity.1);
    var uncompressed :- Take64(rowCount.1);
    Ok((Chunk(rowGroup.0, column.0, physicalType, codec, flags.0, value.0, validity.0, rowCount.0, uncompressed.0),
        uncompressed.1))
  }

  /** References a writer accepts. */
  predicate ChunkOk(c: Chunk) {
    c.value.kind == COLUMN_CHUNK && (c.validity.IsNull() || c.validity.kind == VALIDITY_BITMAP)
  }

  function PutChunkIds(c: Chunk, t: seq<Byte>): seq<Byte> {
    Put32(c.rowGroup) + (Put32(c.column) + (Put16(c.physicalType.Code()) + (Put16(c.codec.Code()) + t)))
  }

  function PutChunk(c: Chunk, t: seq<Byte>): seq<Byte> {
    PutChunkIds(c, Put32(c.flags) + PutBodyRef(c.value, PutBodyRef(c.validity, Put64(c.rowCount) + (Put64(c.uncompressed) + t))))
  }

  lemma ChunkExtends(c: Chunk, t: seq<Byte>, u: seq<Byte>)
    ensures PutChunk(c, t) + u == PutChunk(c, t + u)
  {
    var sizes := Put64(c.rowCount) + (Put64(c.uncompressed) + t);
    var refs := PutBodyRef(c.value, PutBodyRef(c.validity, sizes));
    Regroup(Put64(c.uncompressed), t, u);
    Regroup(Put64(c.rowCount), Put64(c.uncompressed) + t, u);
    BodyRefExtends(c.validity, sizes, u);
    BodyRefExtends(c.value, PutBodyRef(c.validity, sizes), u);
    Regroup(Put32(c.flags), refs, u);
    Join4(Put32(c.rowGroup), Put32(c.column), Put16(c.physicalType.Code()), Put16(c.codec.Code()), Put32(c.flags) + refs, u);
  }

  lemma ChunkRead(c: Chunk, t: seq<Byte>)
    ensures TakeChunk(PutChunk(c, t)) == Ok((c, t))
  {
    var sizes := Put64(c.rowCount) + (Put64(c.uncompressed) + t);
    var refs := PutBodyRef(c.value, PutBodyRef(c.validity, sizes));
    var after := Put32(c.flags) + refs;
    TypeOfCode(c.physicalType);
    CodecOfCode(c.codec);
    TakePut32(c.rowGroup, Put32(c.column) + (Put16(c.physicalType.Code()) + (Put16(c.codec.Code()) + after)));
    TakePut32(c.column, Put16(c.physicalType.Code()) + (Put16(c.codec.Code()) + after));
    TakePut16(c.physicalType.Code(), Put16(c.codec.Code()) + after);
    TakePut16(c.codec.Code(), after);
    TakePut32(c.flags, refs);
    BodyRefRead(c.value, PutBodyRef(c.validity, sizes));
    BodyRefRead(c.validity, sizes);
    TakePut64(c.rowCount, Put64(c.uncompressed) + t);
    TakePut64(c.uncompressed, t);
  }

  /** A chunk descriptor is exactly its bytes. */
  lemma ChunkWritten(b: seq<Byte>)
    requires TakeChunk(b).Ok?
    ensures b == PutChunk(TakeChunk(b).value.0, TakeChunk(b).value.1)
  {
    var rowGroup := Take32(b).value;
    var column := Take32(rowGroup.1).value;
    var typeCode := Take16(column.1).value;
    var codecCode := Take16(typeCode.1).value;
    var flags := Take32(codecCode.1).value;
    var value := TakeBodyRef(flags.1).value;
    var validity := TakeBodyRef(value.1).value;
    PutTake(b);
    PutTake(rowGroup.1);
    PutTake(column.1);
    PutTake(typeCode.1);
    PutTake(codecCode.1);
    BodyRefWritten(flags.1);
    BodyRefWritten(value.1);
    PutTake(validity.1);
    PutTake(Take64(validity.1).value.1);
    CodesOf(typeCode.0, codecCode.0);
  }

  lemma CodesOf(typeCode: U16, codecCode: U16)
    ensures TypeOf(typeCode).Ok? ==> TypeOf(typeCode).value.Code() == typeCode
    ensures CodecOf(codecCode).Ok? ==> CodecOf(codecCode).value.Code() == codecCode
  {
  }

  // ---------------------------------------------------------------- statistics

  /** A statistic's value; floats are their bits. */
  datatype Scalar = OfI32(i: Bytes.I32) | OfI64(j: Bytes.I64) | OfF32(bits32: U32) | OfF64(bits64: U64) {
    function Type(): PhysicalType {
      match this case OfI32(_) => PhysicalType.I32 case OfI64(_) => PhysicalType.I64 case OfF32(_) => F32 case OfF64(_) => F64
    }

    /** The 64-bit word stored: integers sign-extended. */
    function Raw(): U64 {
      match this
      case OfI32(i) => if i < 0 then i + 0x1_0000_0000_0000_0000 else i
      case OfI64(j) => if j < 0 then j + 0x1_0000_0000_0000_0000 else j
      case OfF32(bits) => bits
      case OfF64(bits) => bits
    }
  }

  /** `raw as u32 as i32`. */
  function Low32(raw: U64): Bytes.I32 {
    var low := raw % 0x1_0000_0000;
    if low < 0x8000_0000 then low else low - 0x1_0000_0000
  }

  function ScalarOf(physicalType: PhysicalType, raw: U64): Result<Scalar, FormatError> {
    match physicalType
    case I32 => Ok(OfI32(Low32(raw)))
    case I64 => Ok(OfI64(if raw < 0x8000_0000_0000_0000 then raw else raw - 0x1_0000_0000_0000_0000))
    case F32 => Ok(OfF32(raw % 0x1_0000_0000))
    case F64 => Ok(OfF64(raw))
    case FixedBinary => Err(CorruptFile)
  }

  function TakeScalar(b: seq<Byte>): (r: Taken<Scalar>)
    ensures r.Ok? ==> |b| >= 16 && r.value.1 == b[16..]
  {
    var code :- Take16(b);
    var physicalType :- TypeOf(code.0);
    var reserved0 :- Take16(code.1);
    var raw :- Take64(reserved0.1);
    var reserved1 :- Take32(raw.1);
    var scalar :- ScalarOf(physicalType, raw.0);
    Ok((scalar, reserved1.1))
  }

  /** A scalar as stored: ignored words, and a raw word of which a narrow type reads the low half. */
  datatype StoredScalar = StoredScalar(scalar: Scalar, reserved0: U16, raw: U64, reserved1: U32) {
    predicate Reads() { ScalarOf(scalar.Type(), raw) == Ok(scalar) }
  }

  function PutStoredScalar(x: StoredScalar, t: seq<Byte>): seq<Byte> {
    Put16(x.scalar.Type().Code()) + (Put16(x.reserved0) + (Put64(x.raw) + (Put32(x.reserved1) + t)))
  }

  function Stored(s: Scalar): StoredScalar { StoredScalar(s, 0, s.Raw(), 0) }

  lemma StoredScalarRead(x: StoredScalar, t: seq<Byte>)
    requires x.Reads()
    ensures TakeScalar(PutStoredScalar(x, t)) == Ok((x.scalar, t))
  {
    TakePut16(x.scalar.Type().Code(), Put16(x.reserved0) + (Put64(x.raw) + (Put32(x.reserved1) + t)));
    TakePut16(x.reserved0, Put64(x.raw) + (Put32(x.reserved1) + t));
    TakePut64(x.raw, Put32(x.reserved1) + t);
    TakePut32(x.reserved1, t);
    TypeOfCode(x.scalar.Type());
  }

  lemma ScalarWritten(b: seq<Byte>) returns (x: StoredScalar)
    requires TakeScalar(b).Ok?
    ensures x.Reads() && x.scalar == TakeScalar(b).value.0 && b == PutStoredScalar(x, TakeScalar(b).value.1)
  {
    var code := Take16(b).value;
    var reserved0 := Take16(code.1).value;
    var raw := Take64(reserved0.1).value;
    PutTake(b);
    PutTake(code.1);
    PutTake(reserved0.1);
    PutTake(raw.1);
    CodesOf(code.0, 0);
    x := StoredScalar(TakeScalar(b).value.0, reserved0.0, raw.0, Take32(raw.1).value.0);
  }

  lemma StoredReads(s: Scalar)
    ensures Stored(s).Reads()
  {
    match s
    case OfI32(i) => NarrowReads(i);
    case OfI64(_) =>
    case OfF32(_) =>
    case OfF64(_) =>
  }

  /** Sign extension to 64 bits is undone by reading the low 32. */
  lemma NarrowReads(i: Bytes.I32)
    ensures Low32(OfI32(i).Raw()) == i
  {
  }

  datatype Stats = Stats(
    rowGroup: U32, column: U32, physicalType: PhysicalType, flags: U16, nulls: U32, min: Scalar, max: Scalar)

  /** Scalars of the stated type: required by the writer, enforced by the reader. */
  predicate StatsOk(s: Stats) { s.min.Type() == s.physicalType && s.max.Type() == s.physicalType }

  function TakeStats(b: seq<Byte>): (r: Taken<Stats>)
    ensures r.Ok? ==> |b| >= 48 && r.value.1 == b[48..] && StatsOk(r.value.0)
  {
    var rowGroup :- Take32(b);
    var column :- Take32(rowGroup.1);
    var code :- Take16(column.1);
    var physicalType :- TypeOf(code.0);
    var flags :- Take16(code.1);
    var nulls :- Take32(flags.1);
    var min :- TakeScalar(nulls.1);
    var max :- TakeScalar(min.1);
    var stats := Stats(rowGroup.0, column.0, physicalType, flags.0, nulls.0, min.0, max.0);
    if StatsOk(stats) then Ok((stats, max.1)) else Err(CorruptFile)
  }

  /** Statistics as stored: the fields, with each scalar as stored. */
  datatype StoredStats = StoredStats(stats: Stats, min: StoredScalar, max: StoredScalar) {
    predicate Reads() {
      StatsOk(stats) && min.Reads() && max.Reads() && min.scalar == stats.min && max.scalar == stats.max
    }
  }

  function PutStoredStats(x: StoredStats, t: seq<Byte>): seq<Byte> {
    Put32(x.stats.rowGroup) + (Put32(x.stats.column) + (Put16(x.stats.physicalType.Code()) + (Put16(x.stats.flags)
    + (Put32(x.stats.nulls) + PutStoredScalar(x.min, PutStoredScalar(x.max, t))))))
  }

  function PutStats(s: Stats, t: seq<Byte>): seq<Byte> {
    PutStoredStats(StoredStats(s, Stored(s.min), Stored(s.max)), t)
  }

  lemma StatsExtends(s: Stats, t: seq<Byte>, u: seq<Byte>)
    ensures PutStats(s, t) + u == PutStats(s, t + u)
  {
    StoredStatsExtends(StoredStats(s, Stored(s.min), Stored(s.max)), t, u);
  }

  lemma StoredStatsExtends(x: StoredStats, t: seq<Byte>, u: seq<Byte>)
    ensures PutStoredStats(x, t) + u == PutStoredStats(x, t + u)
  {
    var s := x.stats;
    var scalars := PutStoredScalar(x.min, PutStoredScalar(x.max, t));
    Join4(Put16(x.max.scalar.Type().Code()), Put16(x.max.reserved0), Put64(x.max.raw), Put32(x.max.reserved1), t, u);
    Join4(Put16(x.min.scalar.Type().Code()), Put16(x.min.reserved0), Put64(x.min.raw), Put32(x.min.reserved1),
          PutStoredScalar(x.max, t), u);
    Regroup(Put32(s.nulls), scalars, u);
    Join4(Put32(s.rowGroup), Put32(s.column), Put16(s.physicalType.Code()), Put16(s.flags), Put32(s.nulls) + scalars, u);
  }

  lemma StatsRead(s: Stats, t: seq<Byte>)
    requires StatsOk(s)
    ensures TakeStats(PutStats(s, t)) == Ok((s, t))
  {
    StoredReads(s.min);
    StoredReads(s.max);
    StoredStatsRead(StoredStats(s, Stored(s.min), Stored(s.max)), t);
  }

  lemma StoredStatsRead(x: StoredStats, t: seq<Byte>)
    requires x.Reads()
    ensures TakeStats(PutStoredStats(x, t)) == Ok((x.stats, t))
  {
    var s := x.stats;
    var scalars := PutStoredScalar(x.min, PutStoredScalar(x.max, t));
    var after := Put32(s.nulls) + scalars;
    TypeOfCode(s.physicalType);
    TakePut32(s.rowGroup, Put32(s.column) + (Put16(s.physicalType.Code()) + (Put16(s.flags) + after)));
    TakePut32(s.column, Put16(s.physicalType.Code()) + (Put16(s.flags) + after));
    TakePut16(s.physicalType.Code(), Put16(s.flags) + after);
    TakePut16(s.flags, after);
    TakePut32(s.nulls, scalars);
    StoredScalarRead(x.min, PutStoredScalar(x.max, t));
    StoredScalarRead(x.max, t);
  }

  /** Accepted statistics are their fields, ignored words and raw scalars that read as stated. */
  lemma StatsWritten(b: seq<Byte>) returns (x: StoredStats)
    requires TakeStats(b).Ok?
    ensures x.Reads() && x.stats == TakeStats(b).value.0 && b == PutStoredStats(x, TakeStats(b).value.1)
  {
    var rowGroup := Take32(b).value;
    var column := Take32(rowGroup.1).value;
    var code := Take16(column.1).value;
    var flags := Take16(code.1).value;
    var nulls := Take32(flags.1).value;
    PutTake(b);
    PutTake(rowGroup.1);
    PutTake(column.1);
    PutTake(code.1);
    PutTake(flags.1);
    CodesOf(code.0, 0);
    var min := ScalarWritten(nulls.1);
    var max := ScalarWritten(TakeScalar(nulls.1).value.1);
    x := StoredStats(TakeStats(b).value.0, min, max);
  }

  // ---------------------------------------------------------------- ordering

  datatype Direction = Ascending | Descending {
    function Code(): Byte { if Ascending? then 0 else 1 }
  }

  datatype NullOrder = NullsFirst | NullsLast | NoNulls {
    function Code(): Byte { match this case NullsFirst => 0 case NullsLast => 1 case NoNulls => 2 }
  }

  datatype OrderingKey = OrderingKey(column: U32, direction: Direction, nulls: NullOrder, reserved0: U16)

  function TakeKey(b: seq<Byte>): (r: Taken<OrderingKey>)
    ensures r.Ok? ==> |b| >= 8 && r.value.1 == b[8..]
  {
    var column :- Take32(b);
    var pair :- Take(column.1, 2);
    if pair.0[0] > 1 || pair.0[1] > 2 then Err(CorruptFile)
    else
      var reserved0 :- Take16(pair.1);
      Ok((OrderingKey(column.0, if pair.0[0] == 0 then Ascending else Descending,
                      match pair.0[1] case 0 => NullsFirst case 1 => NullsLast case _ => NoNulls,
                      reserved0.0), reserved0.1))
  }

  function PutKey(k: OrderingKey, t: seq<Byte>): seq<Byte> {
    Put32(k.column) + ([k.direction.Code(), k.nulls.Code()] + (Put16(k.reserved0) + t))
  }

  lemma KeyExtends(k: OrderingKey, t: seq<Byte>, u: seq<Byte>)
    ensures PutKey(k, t) + u == PutKey(k, t + u)
  {
    var codes := [k.direction.Code(), k.nulls.Code()];
    Regroup(Put16(k.reserved0), t, u);
    Regroup(codes, Put16(k.reserved0) + t, u);
    Regroup(Put32(k.column), codes + (Put16(k.reserved0) + t), u);
  }

  lemma KeyRead(k: OrderingKey, t: seq<Byte>)
    ensures TakeKey(PutKey(k, t)) == Ok((k, t))
  {
    var codes := [k.direction.Code(), k.nulls.Code()];
    TakePut32(k.column, codes + (Put16(k.reserved0) + t));
    TakeFront(codes, Put16(k.reserved0) + t);
    TakePut16(k.reserved0, t);
  }

  /** An ordering key is exactly its bytes. */
  lemma KeyWritten(b: seq<Byte>)
    requires TakeKey(b).Ok?
    ensures b == PutKey(TakeKey(b).value.0, TakeKey(b).value.1)
  {
    var column := Take32(b).value;
    var pair := Take(column.1, 2).value;
    PutTake(b);
    PutTake(pair.1);
    assert column.1 == pair.0 + pair.1 && pair.0 == [pair.0[0], pair.0[1]];
  }

  datatype OrderingProof = OrderingProof(rowGroup: U32, flags: U32, first: BodyRef, last: BodyRef)

  predicate ProofOk(p: OrderingProof) {
    && (p.first.IsNull() || p.first.kind == KEY_TUPLE)
    && (p.last.IsNull() || p.last.kind == KEY_TUPLE)
  }

  function TakeProof(b: seq<Byte>): (r: Taken<OrderingProof>)
    ensures r.Ok? ==> |b| >= 72 && r.value.1 == b[72..]
  {
    var rowGroup :- Take32(b);
    var flags :- Take32(rowGroup.1);
    var first :- TakeBodyRef(flags.1);
    var last :- TakeBodyRef(first.1);
    Ok((OrderingProof(rowGroup.0, flags.0, first.0, last.0), last.1))
  }

  function PutProof(p: OrderingProof, t: seq<Byte>): seq<Byte> {
    Put32(p.rowGroup) + (Put32(p.flags) + PutBodyRef(p.first, PutBodyRef(p.last, t)))
  }

  lemma ProofExtends(p: OrderingProof, t: seq<Byte>, u: seq<Byte>)
    ensures PutProof(p, t) + u == PutProof(p, t + u)
  {
    var refs := PutBodyRef(p.first, PutBodyRef(p.last, t));
    BodyRefExtends(p.last, t, u);
    BodyRefExtends(p.first, PutBodyRef(p.last, t), u);
    Regroup(Put32(p.flags), refs, u);
    Regroup(Put32(p.rowGroup), Put32(p.flags) + refs, u);
  }

  lemma ProofRead(p: OrderingProof, t: seq<Byte>)
    ensures TakeProof(PutProof(p, t)) == Ok((p, t))
  {
    var refs := PutBodyRef(p.first, PutBodyRef(p.last, t));
    TakePut32(p.rowGroup, Put32(p.flags) + refs);
    TakePut32(p.flags, refs);
    BodyRefRead(p.first, PutBodyRef(p.last, t));
    BodyRefRead(p.last, t);
  }

  /** An ordering proof is exactly its bytes. */
  lemma ProofWritten(b: seq<Byte>)
    requires TakeProof(b).Ok?
    ensures b == PutProof(TakeProof(b).value.0, TakeProof(b).value.1)
  {
    var rowGroup := Take32(b).value;
    var flags := Take32(rowGroup.1).value;
    PutTake(b);
    PutTake(rowGroup.1);
    BodyRefWritten(flags.1);
    BodyRefWritten(TakeBodyRef(flags.1).value.1);
  }
}
