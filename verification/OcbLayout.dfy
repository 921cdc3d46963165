/** Where each field of an accepted OCB record or header sits, by byte offset. */
module OcbLayout {
  import opened Basics
  import opened Bytes
  import opened OcbReader
  import opened OcbRecords
  import D = OcbDelta
  import V = OcbDictionary
  import S = OcbStringTable
  import B = OcbBootstrap

  /** A field read after dropping `k` bytes is the slice at `k`. */
  lemma Field(b: seq<Byte>, k: nat, n: nat)
    requires k + n <= |b|
    ensures b[k..][..n] == b[k..k + n]
  {
  }

  // ---------------------------------------------------------------- body references

  predicate BodyRefAt(b: seq<Byte>, r: BodyRef)
    requires |b| == 32
  {
    PlaceAt(b, r) && SumAt(b, r)
  }

  predicate PlaceAt(b: seq<Byte>, r: BodyRef)
    requires |b| == 32
  {
    && r.offset == Get64(b[0..8]) && r.length == Get64(b[8..16])
    && r.kind == Get16(b[16..18]) && r.flags == Get16(b[18..20])
  }

  predicate SumAt(b: seq<Byte>, r: BodyRef)
    requires |b| == 32
  {
    && Get16(b[20..22]) == (if r.checksumKind == Crc32c then 1 else 0) && r.reserved0 == Get16(b[22..24])
    && r.checksum == Get32(b[24..28]) && r.reserved1 == Get32(b[28..32])
  }

  lemma PlaceLaid(b: seq<Byte>)
    requires TakePlace(b).Ok?
    ensures TakePlace(b).value.0 == (Get64(b[0..8]), Get64(b[8..16]), Get16(b[16..18]), Get16(b[18..20]))
  {
    Field(b, 0, 8);
    Field(b, 8, 8);
    Field(b, 16, 2);
    Field(b, 18, 2);
  }

  lemma SumLaid(b: seq<Byte>)
    requires TakeSum(b).Ok?
    ensures var (kind, reserved0, checksum, reserved1) := TakeSum(b).value.0;
            && Get16(b[0..2]) == (if kind == Crc32c then 1 else 0)
            && reserved0 == Get16(b[2..4]) && checksum == Get32(b[4..8]) && reserved1 == Get32(b[8..12])
  {
    Field(b, 0, 2);
    Field(b, 2, 2);
    Field(b, 4, 4);
    Field(b, 8, 4);
  }

  lemma Within(b: seq<Byte>, k: nat, i: nat, j: nat)
    requires i <= j && k + j <= |b|
    ensures b[k..][i..j] == b[k + i..k + j]
  {
  }

  lemma Front(b: seq<Byte>, w: nat, i: nat, j: nat)
    requires i <= j <= w <= |b|
    ensures b[..w][i..j] == b[i..j]
  {
  }

  lemma BodyRefLaid(b: seq<Byte>)
    requires TakeBodyRef(b).Ok?
    ensures BodyRefAt(b[..32], TakeBodyRef(b).value.0)
  {
    PlaceLaid(b);
    SumLaid(b[20..]);
    Within(b, 20, 0, 2);
    Within(b, 20, 2, 4);
    Within(b, 20, 4, 8);
    Within(b, 20, 8, 12);
    Front(b, 32, 0, 8);
    Front(b, 32, 8, 16);
    Front(b, 32, 16, 18);
    Front(b, 32, 18, 20);
    Front(b, 32, 20, 22);
    Front(b, 32, 22, 24);
    Front(b, 32, 24, 28);
    Front(b, 32, 28, 32);
  }

  /** A reference read after dropping `k` bytes. */
  lemma BodyRefLaidAt(b: seq<Byte>, k: nat)
    requires k <= |b| && TakeBodyRef(b[k..]).Ok?
    ensures k + 32 <= |b| && BodyRefAt(b[k..k + 32], TakeBodyRef(b[k..]).value.0)
  {
    BodyRefLaid(b[k..]);
    Field(b, k, 32);
  }

  // ---------------------------------------------------------------- row groups

  predicate RowGroupAt(b: seq<Byte>, g: RowGroup)
    requires |b| >= 120
  {
    RowGroupFieldsAt(b, g) && BodyRefAt(b[56..88], g.firstKey) && BodyRefAt(b[88..120], g.lastKey)
  }

  predicate RowGroupFieldsAt(b: seq<Byte>, g: RowGroup)
    requires |b| >= 120
  {
    && g.id == Get32(b[0..4]) && g.flags == Get32(b[4..8])
    && g.baseRow == Get64(b[8..16]) && g.rowCount == Get64(b[16..24])
    && g.chunkBegin == Get64(b[24..32]) && g.chunkCount == Get32(b[32..36])
    && g.statBegin == Get64(b[40..48]) && g.statCount == Get32(b[48..52])
  }

  /** A reference field is the reference taken at its offset. */
  ghost predicate RefTaken(b: seq<Byte>, k: nat, r: BodyRef) {
    k <= |b| && TakeBodyRef(b[k..]).Ok? && TakeBodyRef(b[k..]).value.0 == r
  }

  lemma RefLaid(b: seq<Byte>, k: nat, r: BodyRef)
    requires RefTaken(b, k, r)
    ensures k + 32 <= |b| && BodyRefAt(b[k..k + 32], r)
  {
    BodyRefLaidAt(b, k);
  }

  lemma RowGroupFields(b: seq<Byte>)
    requires TakeRowGroup(b).Ok?
    ensures RowGroupFieldsAt(b, TakeRowGroup(b).value.0)
    ensures RefTaken(b, 56, TakeRowGroup(b).value.0.firstKey) && RefTaken(b, 88, TakeRowGroup(b).value.0.lastKey)
  {
    Field(b, 0, 4);
    Field(b, 4, 4);
    Field(b, 8, 8);
    Field(b, 16, 8);
    Field(b, 24, 8);
    Field(b, 32, 4);
    Field(b, 40, 8);
    Field(b, 48, 4);
  }

  lemma RowGroupLaid(b: seq<Byte>)
    requires TakeRowGroup(b).Ok?
    ensures RowGroupAt(b, TakeRowGroup(b).value.0)
  {
    RowGroupFields(b);
    RefLaid(b, 56, TakeRowGroup(b).value.0.firstKey);
    RefLaid(b, 88, TakeRowGroup(b).value.0.lastKey);
  }

  // ---------------------------------------------------------------- column chunks

  predicate TypeAt(b: seq<Byte>, t: PhysicalType)
    requires |b| == 2
  {
    match t
    case I32 => Get16(b) == 1
    case I64 => Get16(b) == 2
    case F32 => Get16(b) == 3
    case F64 => Get16(b) == 4
    case FixedBinary => Get16(b) == 5
  }

  predicate ChunkAt(b: seq<Byte>, c: Chunk)
    requires |b| >= 96
  {
    && ChunkFieldsAt(b, c) && BodyRefAt(b[16..48], c.value) && BodyRefAt(b[48..80], c.validity)
  }

  predicate ChunkFieldsAt(b: seq<Byte>, c: Chunk)
    requires |b| >= 96
  {
    && c.rowGroup == Get32(b[0..4]) && c.column == Get32(b[4..8])
    && TypeAt(b[8..10], c.physicalType) && Get16(b[10..12]) == (if c.codec == Zstd then 1 else 0)
    && c.flags == Get32(b[12..16])
    && c.rowCount == Get64(b[80..88]) && c.uncompressed == Get64(b[88..96])
  }

  lemma ChunkFields(b: seq<Byte>)
    requires TakeChunk(b).Ok?
    ensures ChunkFieldsAt(b, TakeChunk(b).value.0)
    ensures RefTaken(b, 16, TakeChunk(b).value.0.value) && RefTaken(b, 48, TakeChunk(b).value.0.validity)
  {
    Field(b, 0, 4);
    Field(b, 4, 4);
    Field(b, 8, 2);
    Field(b, 10, 2);
    Field(b, 12, 4);
    Field(b, 80, 8);
    Field(b, 88, 8);
    CodesNamed(Get16(b[8..10]), Get16(b[10..12]));
  }

  lemma CodesNamed(typeCode: U16, codecCode: U16)
    ensures TypeOf(typeCode).Ok? ==>
              match TypeOf(typeCode).value {
                case I32 => typeCode == 1
                case I64 => typeCode == 2
                case F32 => typeCode == 3
                case F64 => typeCode == 4
                case FixedBinary => typeCode == 5
              }
    ensures CodecOf(codecCode).Ok? ==> codecCode == if CodecOf(codecCode).value == Zstd then 1 else 0
  {
  }

  lemma ChunkLaid(b: seq<Byte>)
    requires TakeChunk(b).Ok?
    ensures ChunkAt(b, TakeChunk(b).value.0)
  {
    ChunkFields(b);
    RefLaid(b, 16, TakeChunk(b).value.0.value);
    RefLaid(b, 48, TakeChunk(b).value.0.validity);
  }

  // ---------------------------------------------------------------- statistics

  predicate ScalarAt(b: seq<Byte>, s: Scalar)
    requires |b| == 16
  {
    && TypeAt(b[0..2], s.Type())
    && match s {
         case OfI32(i) => i == GetI32(b[4..8])
         case OfI64(j) => j == GetI64(b[4..12])
         case OfF32(bits) => bits == Get32(b[4..8])
         case OfF64(bits) => bits == Get64(b[4..12])
       }
  }

  /** The low half of a stored word is its first four bytes. */
  lemma LowHalf(b: seq<Byte>)
    requires |b| == 8
    ensures Get64(b) % 0x1_0000_0000 == Get32(b[..4]) && Low32(Get64(b)) == GetI32(b[..4])
  {
    Word64(b);
    LowOf(Get32(b[..4]), Get32(b[4..]));
  }

  lemma Word64(b: seq<Byte>)
    requires |b| == 8
    ensures Get64(b) == Get32(b[..4]) + 0x1_0000_0000 * (Get32(b[4..]) as int)
  {
    LittleEndian(b);
    LittleEndian(b[..4]);
    LittleEndian(b[4..]);
  }

  lemma LowOf(low: U32, high: U32)
    ensures (low + 0x1_0000_0000 * (high as int)) % 0x1_0000_0000 == low
  {
  }

  lemma ScalarLaid(b: seq<Byte>)
    requires TakeScalar(b).Ok?
    ensures ScalarAt(b[..16], TakeScalar(b).value.0)
  {
    var p := b[..16];
    Field(b, 0, 2);
    Field(b, 4, 8);
    LowHalf(b[4..12]);
    assert p[0..2] == b[0..2] && p[4..12] == b[4..12] && p[4..8] == b[4..12][..4];
  }

  lemma ScalarLaidAt(b: seq<Byte>, k: nat)
    requires k <= |b| && TakeScalar(b[k..]).Ok?
    ensures k + 16 <= |b| && ScalarAt(b[k..k + 16], TakeScalar(b[k..]).value.0)
  {
    ScalarLaid(b[k..]);
    Field(b, k, 16);
  }

  predicate StatsAt(b: seq<Byte>, s: Stats)
    requires |b| >= 48
  {
    && s.rowGroup == Get32(b[0..4]) && s.column == Get32(b[4..8])
    && TypeAt(b[8..10], s.physicalType) && s.flags == Get16(b[10..12]) && s.nulls == Get32(b[12..16])
    && ScalarAt(b[16..32], s.min) && ScalarAt(b[32..48], s.max)
  }

  lemma StatsLaid(b: seq<Byte>)
    requires TakeStats(b).Ok?
    ensures StatsAt(b, TakeStats(b).value.0)
  {
    Field(b, 0, 4);
    Field(b, 4, 4);
    Field(b, 8, 2);
    Field(b, 10, 2);
    Field(b, 12, 4);
    ScalarLaidAt(b, 16);
    ScalarLaidAt(b, 32);
  }

  // ---------------------------------------------------------------- ordering

  predicate KeyAt(b: seq<Byte>, k: OrderingKey)
    requires |b| >= 8
  {
    && k.column == Get32(b[0..4])
    && b[4] == (if k.direction == Descending then 1 else 0)
    && b[5] == (match k.nulls case NullsFirst => 0 case NullsLast => 1 case NoNulls => 2)
    && k.reserved0 == Get16(b[6..8])
  }

  lemma KeyLaid(b: seq<Byte>)
    requires TakeKey(b).Ok?
    ensures KeyAt(b, TakeKey(b).value.0)
  {
    Field(b, 0, 4);
    Field(b, 4, 2);
    Field(b, 6, 2);
    assert b[4..6][0] == b[4] && b[4..6][1] == b[5];
  }

  predicate ProofAt(b: seq<Byte>, p: OrderingProof)
    requires |b| >= 72
  {
    && p.rowGroup == Get32(b[0..4]) && p.flags == Get32(b[4..8])
    && BodyRefAt(b[8..40], p.first) && BodyRefAt(b[40..72], p.last)
  }

  lemma ProofFields(b: seq<Byte>)
    requires TakeProof(b).Ok?
    ensures TakeProof(b).value.0.rowGroup == Get32(b[0..4]) && TakeProof(b).value.0.flags == Get32(b[4..8])
    ensures RefTaken(b, 8, TakeProof(b).value.0.first) && RefTaken(b, 40, TakeProof(b).value.0.last)
  {
    Field(b, 0, 4);
    Field(b, 4, 4);
  }

  lemma ProofLaid(b: seq<Byte>)
    requires TakeProof(b).Ok?
    ensures ProofAt(b, TakeProof(b).value.0)
  {
    ProofFields(b);
    RefLaid(b, 8, TakeProof(b).value.0.first);
    RefLaid(b, 40, TakeProof(b).value.0.last);
  }

  // ---------------------------------------------------------------- record sequences

  /** Record `i` of a counted sequence is the one taken at `i` widths. */
  lemma {:induction false} RecordAt<T(!new)>(take: seq<Byte> -> Taken<T>, w: nat, b: seq<Byte>, count: nat, i: nat)
    requires Width(take, w) && TakeAll(take, b, count).Ok? && i < count
    ensures |TakeAll(take, b, count).value.0| == count && i * w <= |b|
    ensures take(b[i * w..]).Ok? && take(b[i * w..]).value.0 == TakeAll(take, b, count).value.0[i]
    decreases count
  {
    TakeAllWidth(take, w, b, count);
    if i == 0 {
      assert b[0..] == b;
    } else {
      var rest := take(b).value.1;
      RecordAt(take, w, rest, count - 1, i - 1);
      assert i * w == w + (i - 1) * w;
      DropTwice(b, w, (i - 1) * w);
    }
  }

  // ---------------------------------------------------------------- the delta

  predicate DeltaHeaderAt(b: seq<Byte>, h: D.Header)
    requires |b| >= 44
  {
    && h.base.rowGroups == Get32(b[0..4]) && h.base.chunks == Get32(b[4..8])
    && h.base.stats == Get32(b[8..12]) && h.base.proofs == Get32(b[12..16])
    && h.counts.rowGroups == Get32(b[16..20]) && h.counts.chunks == Get32(b[20..24])
    && h.counts.stats == Get32(b[24..28]) && h.counts.keys == Get16(b[28..30])
    && h.counts.proofs == Get32(b[32..36]) && h.flags == Get32(b[36..40])
  }

  lemma BaseLaid(b: seq<Byte>)
    requires D.TakeBase(b).Ok?
    ensures |b| >= 16 && D.TakeBase(b).value.1 == b[16..]
    ensures D.TakeBase(b).value.0 == D.Base(Get32(b[0..4]), Get32(b[4..8]), Get32(b[8..12]), Get32(b[12..16]))
  {
    Field(b, 0, 4);
    Field(b, 4, 4);
    Field(b, 8, 4);
    Field(b, 12, 4);
  }

  lemma CountsLaid(b: seq<Byte>)
    requires D.TakeCounts(b).Ok?
    ensures |b| >= 20 && D.TakeCounts(b).value.1 == b[20..]
    ensures D.TakeCounts(b).value.0 ==
            D.Counts(Get32(b[0..4]), Get32(b[4..8]), Get32(b[8..12]), Get16(b[12..14]), Get32(b[16..20]))
  {
    Field(b, 0, 4);
    Field(b, 4, 4);
    Field(b, 8, 4);
    Field(b, 12, 2);
    Field(b, 16, 4);
  }

  /** The delta's header fields, counted from the end of its 12-byte envelope. */
  lemma DeltaHeaderLaid(b: seq<Byte>)
    requires D.TakeHeader(b).Ok?
    ensures |b| >= 44 && DeltaHeaderAt(b, D.TakeHeader(b).value.0) && D.TakeHeader(b).value.1 == b[44..]
  {
    BaseLaid(b);
    var c := b[16..];
    CountsLaid(c);
    Within(b, 16, 0, 4);
    Within(b, 16, 4, 8);
    Within(b, 16, 8, 12);
    Within(b, 16, 12, 14);
    Within(b, 16, 16, 20);
    Field(b, 36, 4);
  }

  /** The record at offset `k` is `x`. */
  ghost predicate RecordIs<T(!new)>(take: seq<Byte> -> Taken<T>, b: seq<Byte>, k: nat, x: T) {
    k <= |b| && take(b[k..]).Ok? && take(b[k..]).value.0 == x
  }

  /** The sequence taken at `at` is `xs`. */
  ghost predicate Placed<T(!new)>(take: seq<Byte> -> Taken<T>, b: seq<Byte>, at: nat, xs: seq<T>) {
    at <= |b| && TakeAll(take, b[at..], |xs|).Ok? && TakeAll(take, b[at..], |xs|).value.0 == xs
  }

  /** Then its records sit at `at`, `at + w`, `at + 2w` and so on. */
  lemma RecordPlaced<T(!new)>(take: seq<Byte> -> Taken<T>, w: nat, b: seq<Byte>, at: nat, xs: seq<T>, i: nat)
    requires Width(take, w) && Placed(take, b, at, xs) && i < |xs|
    ensures RecordIs(take, b, at + i * w, xs[i])
  {
    RecordAt(take, w, b[at..], |xs|, i);
    DropTwice(b, at, i * w);
  }

  /** A section read at `at` is placed there, and the next section starts where it ends. */
  lemma SectionPlaced<T(!new)>(
    take: seq<Byte> -> Taken<T>, w: nat, b: seq<Byte>, at: nat, rest: seq<Byte>, count: nat, end: nat)
    requires Width(take, w) && at <= |b| && rest == b[at..] && D.TakeSection(take, w, rest, count).Ok? && end == at + count * w
    ensures var (xs, t) := D.TakeSection(take, w, rest, count).value;
            |xs| == count && Placed(take, b, at, xs) && end + 4 <= |b| && t == b[end..]
  {
    TakeAllWidth(take, w, rest, count);
    DropTwice(b, at, end - at);
  }

  /** Where each section of a delta starts, and where the last one ends. */
  datatype Offsets = Offsets(rowGroups: nat, chunks: nat, stats: nat, keys: nat, proofs: nat, end: nat)

  /** Sections follow one another from `at`: row groups, chunks, statistics, keys, proofs. */
  ghost predicate Consecutive(c: D.Counts, at: nat, o: Offsets) {
    && o.rowGroups == at
    && o.chunks == o.rowGroups + c.rowGroups * 120
    && o.stats == o.chunks + c.chunks * 96
    && o.keys == o.stats + c.stats * 48
    && o.proofs == o.keys + c.keys * 8
    && o.end == o.proofs + c.proofs * 72
  }

  ghost predicate RecordsAt(b: seq<Byte>, o: Offsets, r: D.Records) {
    && Placed(TakeRowGroup, b, o.rowGroups, r.index.rowGroups)
    && Placed(TakeChunk, b, o.chunks, r.index.chunks)
    && Placed(TakeStats, b, o.stats, r.index.stats)
    && Placed(TakeKey, b, o.keys, r.ordering.keys)
    && Placed(TakeProof, b, o.proofs, r.ordering.proofs)
  }

  /** Two sections in a row, whatever their records. */
  lemma TwoSections<T(!new), U(!new)>(
    first: seq<Byte> -> Taken<T>, w: nat, second: seq<Byte> -> Taken<U>, v: nat,
    b: seq<Byte>, at: nat, rest: seq<Byte>, m: nat, mid: nat, n: nat, end: nat)
    requires Width(first, w) && Width(second, v) && at <= |b| && rest == b[at..] && mid == at + m * w && end == mid + n * v
    requires D.TakeTwo(first, w, m, second, v, n, rest).Ok?
    ensures var ((xs, ys), t) := D.TakeTwo(first, w, m, second, v, n, rest).value;
            && |xs| == m && |ys| == n && Placed(first, b, at, xs) && Placed(second, b, mid, ys)
            && end <= |b| && t == b[end..]
  {
    SectionPlaced(first, w, b, at, rest, m, mid);
    SectionPlaced(second, v, b, mid, D.TakeSection(first, w, rest, m).value.1, n, end);
  }

  lemma TablesLaid(c: D.Counts, b: seq<Byte>, o: Offsets, rest: seq<Byte>)
    requires Consecutive(c, o.rowGroups, o) && o.rowGroups <= |b| && rest == b[o.rowGroups..] && D.TakeTables(c, rest).Ok?
    ensures var ((groups, chunks), t) := D.TakeTables(c, rest).value;
            && |groups| == c.rowGroups && |chunks| == c.chunks
            && Placed(TakeRowGroup, b, o.rowGroups, groups) && Placed(TakeChunk, b, o.chunks, chunks)
            && o.stats <= |b| && t == b[o.stats..]
  {
    TwoSections(TakeRowGroup, 120, TakeChunk, 96, b, o.rowGroups, rest, c.rowGroups, o.chunks, c.chunks, o.stats);
  }

  lemma StatsPlaced(b: seq<Byte>, at: nat, rest: seq<Byte>, count: nat, end: nat)
    requires at <= |b| && rest == b[at..] && D.TakeSection(TakeStats, 48, rest, count).Ok? && end == at + count * 48
    ensures var (xs, t) := D.TakeSection(TakeStats, 48, rest, count).value;
            |xs| == count && Placed(TakeStats, b, at, xs) && end <= |b| && t == b[end..]
  {
    SectionPlaced(TakeStats, 48, b, at, rest, count, end);
  }

  lemma OrderingLaid(c: D.Counts, b: seq<Byte>, o: Offsets, rest: seq<Byte>)
    requires Consecutive(c, o.rowGroups, o) && o.keys <= |b| && rest == b[o.keys..] && D.TakeOrdering(c, rest).Ok?
    ensures var r := D.TakeOrdering(c, rest).value.0;
            Placed(TakeKey, b, o.keys, r.keys) && Placed(TakeProof, b, o.proofs, r.proofs)
  {
    TwoSections(TakeKey, 8, TakeProof, 72, b, o.keys, rest, c.keys, o.proofs, c.proofs, o.end);
  }

  /** Every section of accepted records is placed at its offset. */
  lemma SectionsLaid(c: D.Counts, b: seq<Byte>, o: Offsets, rest: seq<Byte>)
    requires Consecutive(c, o.rowGroups, o) && o.rowGroups <= |b| && rest == b[o.rowGroups..] && D.TakeRecords(c, rest).Ok?
    ensures RecordsAt(b, o, D.TakeRecords(c, rest).value.0)
  {
    TablesLaid(c, b, o, rest);
    StatsPlaced(b, o.stats, D.TakeTables(c, rest).value.1, c.stats, o.keys);
    OrderingLaid(c, b, o, D.TakeIndex(c, rest).value.1);
  }

  lemma EnvelopeEnds(magic: seq<Byte>, headerLen: U16, z: seq<Byte>)
    requires |magic| == 8 && TakeEnvelope(magic, headerLen, z).Ok?
    ensures |z| >= 12 && TakeEnvelope(magic, headerLen, z).value == z[12..]
    ensures z[0..8] == magic && Get16(z[8..10]) == 1 && Get16(z[10..12]) == headerLen
  {
    Field(z, 0, 8);
    Field(z, 8, 2);
    Field(z, 10, 2);
  }

  /**
   An accepted delta, by byte offset: envelope, header fields from byte 12, and from
   byte 56 every section in order, as long as its count says.
   */
  lemma DeltaLaid(z: seq<Byte>, o: Offsets)
    requires D.ParseZeroed(z).Ok? && D.TakeHeader(z[12..]).Ok?
    requires Consecutive(D.TakeHeader(z[12..]).value.0.counts, 56, o)
    ensures var c, h := D.ParseZeroed(z).value, D.TakeHeader(z[12..]).value.0;
            && z[0..8] == D.MAGIC && Get16(z[8..10]) == 1 && Get16(z[10..12]) == 56
            && |z| >= 56 && DeltaHeaderAt(z[12..], h) && c.base == h.base && c.flags == h.flags
            && RecordsAt(z, o, c.records)
  {
    EnvelopeEnds(D.MAGIC, D.HEADER_LEN, z);
    DeltaHeaderLaid(z[12..]);
    DropTwice(z, 12, 44);
    SectionsLaid(D.TakeHeader(z[12..]).value.0.counts, z, o, z[56..]);
  }

  // ---------------------------------------------------------------- the dictionary

  predicate DictionaryHeaderAt(b: seq<Byte>, h: V.Header)
    requires |b| >= 28
  {
    && Get16(b[0..2]) == (match h.kind case Utf8 => 1 case Bytes => 2 case FixedBytes => 3 case EnumLabels => 4)
    && h.count == Get32(b[4..8]) && h.width == Get32(b[8..12]) && h.dataBytes == Get64(b[12..20])
  }

  lemma DictionaryHeaderLaid(b: seq<Byte>)
    requires V.TakeHeader(b).Ok?
    ensures |b| >= 28 && DictionaryHeaderAt(b, V.TakeHeader(b).value.0) && V.TakeHeader(b).value.1 == b[28..]
  {
    Field(b, 0, 2);
    Field(b, 4, 4);
    Field(b, 8, 4);
    Field(b, 12, 8);
  }

  /** The `i`-th end offset is the previous one and the first `i + 1` lengths. */
  lemma {:induction false} EndAt(h: V.Header, previous: U64, b: seq<Byte>, count: nat, i: nat)
    requires V.TakeLengths(h, previous, b, count).Ok? && i < count
    ensures |V.TakeLengths(h, previous, b, count).value.0| == count && 8 * i + 8 <= |b|
    ensures Get64(b[8 * i..8 * i + 8]) == previous + V.Total(V.TakeLengths(h, previous, b, count).value.0[..i + 1])
    decreases count
  {
    var next := Take64(b).value;
    var lens := V.TakeLengths(h, previous, b, count).value.0;
    var others := V.TakeLengths(h, next.0, next.1, count - 1).value.0;
    if count > 1 {
      EndAt(h, next.0, next.1, count - 1, if i == 0 then 0 else i - 1);
    }
    if i == 0 {
      assert lens[..1] == [lens[0]] && [lens[0]][1..] == [];
      assert V.Total([lens[0]]) == lens[0] + V.Total([]);
    } else {
      assert lens[..i + 1][1..] == others[..i];
      Within(b, 8, 8 * (i - 1), 8 * i);
    }
  }

  /** Value `i` is the data between the sums of the lengths before and through it. */
  lemma {:induction false} CutAt(data: seq<Byte>, lens: seq<nat>, i: nat)
    requires V.Total(lens) == |data| && i < |lens|
    ensures V.Total(lens[..i]) <= V.Total(lens[..i + 1]) <= |data|
    ensures V.CutUp(data, lens)[i] == data[V.Total(lens[..i])..V.Total(lens[..i + 1])]
    decreases |lens|
  {
    var n := lens[0];
    if i == 0 {
      assert lens[..0] == [] && lens[..1] == [n] && [n][1..] == [];
      assert V.Total([n]) == n + V.Total([]);
    } else {
      CutAt(data[n..], lens[1..], i - 1);
      assert lens[..i][1..] == lens[1..][..i - 1] && lens[..i + 1][1..] == lens[1..][..i];
      Within(data, n, V.Total(lens[1..][..i - 1]), V.Total(lens[1..][..i]));
    }
  }

  /** Offset `i` of an accepted table is the sum of the first `i` lengths. */
  lemma OffsetAt(h: V.Header, b: seq<Byte>, i: nat)
    requires V.TakeTable(h, b).Ok? && i <= h.count
    ensures |V.TakeTable(h, b).value.0| == h.count && 8 * i + 8 <= |b|
    ensures Get64(b[8 * i..8 * i + 8]) == V.Total(V.TakeTable(h, b).value.0[..i])
  {
    var lens := V.TakeTable(h, b).value.0;
    V.EndsWritten(h, 0, b[8..], h.count);
    if i == 0 {
      assert lens[..0] == [];
      Field(b, 0, 8);
    } else {
      EndAt(h, 0, b[8..], h.count, i - 1);
      Within(b, 8, 8 * (i - 1), 8 * i);
    }
  }

  /** The data follow the offsets. */
  lemma DataAt(h: V.Header, b: seq<Byte>, data: nat)
    requires V.TakeTable(h, b).Ok? && data == 8 + 8 * h.count
    ensures data + h.dataBytes + 4 <= |b| && V.TakeTable(h, b).value.1 == b[data..]
  {
    var (lens, t) := V.TakeTable(h, b).value;
    V.EndsWritten(h, 0, b[8..], h.count);
    V.EndsLength(0, lens);
    TableData(b, b[8..], V.PutEnds(0, lens), t, data);
  }

  /**
   The values of an accepted dictionary table, by offset: one offset more than values,
   the first of them zero, and a value is the data between its two offsets.
   */
  lemma DictionaryTableLaid(h: V.Header, b: seq<Byte>, i: nat, data: nat, start: nat, end: nat)
    requires V.TableValues(h, b).Ok? && i < h.count && data == 8 + 8 * h.count
    requires 8 * i + 16 <= |b| && start == Get64(b[8 * i..8 * i + 8]) && end == Get64(b[8 * i + 8..8 * i + 16])
    ensures |V.TableValues(h, b).value| == h.count && (i == 0 ==> start == 0) && (i + 1 == h.count ==> end == h.dataBytes)
    ensures start <= end && data + end <= |b| && V.TableValues(h, b).value[i] == b[data + start..data + end]
  {
    var (lens, t) := V.TakeTable(h, b).value;
    V.EndsWritten(h, 0, b[8..], h.count);
    OffsetAt(h, b, i);
    OffsetAt(h, b, i + 1);
    DataAt(h, b, data);
    CutAt(t[..h.dataBytes], lens, i);
    Front(t, h.dataBytes, start, end);
    Within(b, data, start, end);
    assert lens[..0] == [] && lens[..|lens|] == lens;
  }

  lemma TableData(b: seq<Byte>, after: seq<Byte>, ends: seq<Byte>, t: seq<Byte>, data: nat)
    requires |b| >= 8 && after == b[8..] && after == ends + t && data == 8 + |ends|
    ensures data <= |b| && t == b[data..]
  {
    assert t == after[|ends|..];
    DropTwice(b, 8, |ends|);
  }

  // ---------------------------------------------------------------- the string table

  lemma StringHeaderLaid(b: seq<Byte>)
    requires S.TakeCount(b).Ok?
    ensures |b| >= 12 && S.TakeCount(b).value == (Get32(b[0..4]), b[8..])
  {
    Field(b, 0, 4);
  }

  /** A string is its 32-bit length and then its bytes. */
  lemma StringLaid(b: seq<Byte>)
    requires S.TakeString(b).Ok?
    ensures var n := Get32(b[0..4]);
            4 + n + 4 <= |b| && S.TakeString(b).value == (b[4..4 + n], b[4 + n..])
  {
    var n := Get32(b[..4]);
    Field(b, 4, n);
    DropTwice(b, 4, n);
  }

  // ---------------------------------------------------------------- root slots and the bootstrap page

  lemma SlotHeadLaid(b: seq<Byte>)
    requires B.TakeSlotHead(b).Ok?
    ensures |b| >= 16 && B.TakeSlotHead(b).value == ((Get16(b[12..14]), Get16(b[14..16])), b[16..])
    ensures b[0..8] == B.SLOT_MAGIC && Get16(b[8..10]) == 2 && Get16(b[10..12]) == 160
  {
    Field(b, 0, 8);
    Field(b, 8, 2);
    Field(b, 10, 2);
    Field(b, 12, 2);
    Field(b, 14, 2);
  }

  lemma RootsLaid(b: seq<Byte>)
    requires B.TakeRoots(b).Ok?
    ensures var (generation, root, previous, previousRoot) := B.TakeRoots(b).value.0;
            && generation == Get64(b[0..8]) && previous == Get64(b[40..48])
            && RefTaken(b, 8, root) && RefTaken(b, 48, previousRoot)
  {
    Field(b, 0, 8);
    Field(b, 40, 8);
  }

  lemma StampLaid(b: seq<Byte>)
    requires B.TakeStamp(b).Ok?
    ensures var (diagnostics, nanos, version) := B.TakeStamp(b).value.0;
            && nanos == Get64(b[32..40]) && version == b[40..56] && RefTaken(b, 0, diagnostics)
  {
    Field(b, 32, 8);
    Field(b, 40, 16);
    assert b[0..] == b;
  }

  lemma RefMoved(b: seq<Byte>, k: nat, j: nat, r: BodyRef)
    requires k <= |b| && RefTaken(b[k..], j, r)
    ensures RefTaken(b, k + j, r)
  {
    DropTwice(b, k, j);
  }

  predicate SlotHeadAt(b: seq<Byte>, s: B.Slot)
    requires |b| >= 156
  {
    && b[0..8] == B.SLOT_MAGIC && Get16(b[8..10]) == 2 && Get16(b[10..12]) == 160
    && s.id == Get16(b[12..14]) && s.flags == Get16(b[14..16])
  }

  predicate RootsTaken(b: seq<Byte>, s: B.Slot)
    requires |b| >= 156
  {
    var r := B.TakeRoots(b[16..]);
    r.Ok? && r.value.0 == (s.generation, s.root, s.previousGeneration, s.previousRoot)
  }

  predicate StampTaken(b: seq<Byte>, s: B.Slot)
    requires |b| >= 156
  {
    var r := B.TakeStamp(b[96..]);
    r.Ok? && r.value.0 == (s.diagnostics, s.committedNanos, s.writerVersion)
  }

  /** The parts of a slot start at bytes 16 and 96. */
  lemma SlotParts(b: seq<Byte>, s: B.Slot)
    requires B.TakeSlot(b).Ok? && B.TakeSlot(b).value.0 == s
    ensures |b| >= 156 && SlotHeadAt(b, s) && RootsTaken(b, s) && StampTaken(b, s)
  {
    SlotHeadLaid(b);
    DropTwice(b, 16, 80);
  }

  predicate RootsAt(b: seq<Byte>, s: B.Slot)
    requires |b| >= 156
  {
    && s.generation == Get64(b[16..24]) && BodyRefAt(b[24..56], s.root)
    && s.previousGeneration == Get64(b[56..64]) && BodyRefAt(b[64..96], s.previousRoot)
  }

  predicate StampAt(b: seq<Byte>, s: B.Slot)
    requires |b| >= 156
  {
    BodyRefAt(b[96..128], s.diagnostics) && s.committedNanos == Get64(b[128..136]) && s.writerVersion == b[136..152]
  }

  lemma SlotRootsLaid(b: seq<Byte>, s: B.Slot)
    requires |b| >= 156 && RootsTaken(b, s)
    ensures RootsAt(b, s)
  {
    RootsLaid(b[16..]);
    Within(b, 16, 0, 8);
    Within(b, 16, 40, 48);
    RefMoved(b, 16, 8, s.root);
    RefMoved(b, 16, 48, s.previousRoot);
    RefLaid(b, 24, s.root);
    RefLaid(b, 64, s.previousRoot);
  }

  lemma SlotStampLaid(b: seq<Byte>, s: B.Slot)
    requires |b| >= 156 && StampTaken(b, s)
    ensures StampAt(b, s)
  {
    StampLaid(b[96..]);
    Within(b, 96, 32, 40);
    Within(b, 96, 40, 56);
    RefMoved(b, 96, 0, s.diagnostics);
    RefLaid(b, 96, s.diagnostics);
  }

  /** An accepted root slot, by byte offset. */
  lemma SlotLaid(b: seq<Byte>, s: B.Slot)
    requires B.TakeSlot(b).Ok? && B.TakeSlot(b).value.0 == s
    ensures |b| >= 156 && SlotHeadAt(b, s) && RootsAt(b, s) && StampAt(b, s)
  {
    SlotParts(b, s);
    SlotRootsLaid(b, s);
    SlotStampLaid(b, s);
  }

  /** An accepted bootstrap page, by byte offset. */
  lemma PageLaid(page: B.PageBytes)
    requires B.ReadPage(page).Ok?
    ensures var p := B.ReadPage(page).value;
            && page[0..8] == B.MAGIC && p.fields.major == Get16(page[8..10]) == 2 && p.fields.minor == Get16(page[10..12]) == 0
            && p.fields.flags == Get32(page[12..16]) && p.fields.pageSize == Get32(page[16..20]) == 4096
            && p.fields.uuid == page[20..36]
            && p.slots == [page[64..224], page[224..384]] && p.crc == Get32(page[4092..4096])
  {
    HeadFields(page[..64]);
    Front(page, 64, 0, 8);
    Front(page, 64, 8, 10);
    Front(page, 64, 10, 12);
    Front(page, 64, 12, 16);
    Front(page, 64, 16, 20);
    Front(page, 64, 20, 36);
    assert page[4092..] == page[4092..4096];
  }

  lemma HeadFields(b: seq<Byte>)
    requires |b| == 64 && B.TakeFields(b).Ok?
    ensures B.TakeFields(b).value ==
            B.Fields(Get16(b[8..10]), Get16(b[10..12]), Get32(b[12..16]), Get32(b[16..20]), b[20..36])
    ensures b[0..8] == B.MAGIC && Get16(b[8..10]) == 2 && Get16(b[10..12]) == 0 && Get32(b[16..20]) == 4096
  {
    Field(b, 0, 8);
    Field(b, 8, 2);
    Field(b, 10, 2);
    Field(b, 12, 4);
    Field(b, 16, 4);
    Field(b, 20, 16);
  }
}
