/** The row-group-index delta: five counted record sections under one checksum. */
module OcbDelta {
  import opened Basics
  import opened Bytes
  import opened Crc32c
  import opened OcbReader
  import opened OcbRecords

  const MAGIC: seq<Byte> := [0x4F, 0x43, 0x42, 0x52, 0x47, 0x44, 0x31, 0x00]   // "OCBRGD1\0"
  const HEADER_LEN: U16 := 56

  datatype Base = Base(rowGroups: U32, chunks: U32, stats: U32, proofs: U32)

  datatype Counts = Counts(rowGroups: U32, chunks: U32, stats: U32, keys: U16, proofs: U32)

  datatype Header = Header(base: Base, counts: Counts, flags: U32)

  datatype Index = Index(rowGroups: seq<RowGroup>, chunks: seq<Chunk>, stats: seq<Stats>)

  datatype Ordering = Ordering(keys: seq<OrderingKey>, proofs: seq<OrderingProof>)

  datatype Records = Records(index: Index, ordering: Ordering)

  datatype Delta = Delta(base: Base, flags: U32, records: Records, crc: U32)

  // ---------------------------------------------------------------- header

  function TakeBase(b: seq<Byte>): Taken<Base> {
    var rowGroups :- Take32(b);
    var chunks :- Take32(rowGroups.1);
    var stats :- Take32(chunks.1);
    var proofs :- Take32(stats.1);
    Ok((Base(rowGroups.0, chunks.0, stats.0, proofs.0), proofs.1))
  }

  function TakeCounts(b: seq<Byte>): Taken<Counts> {
    var rowGroups :- Take32(b);
    var chunks :- Take32(rowGroups.1);
    var stats :- Take32(chunks.1);
    var keys :- Take16(stats.1);
    var reserved0 :- Take16(keys.1);
    var proofs :- Take32(reserved0.1);
    Ok((Counts(rowGroups.0, chunks.0, stats.0, keys.0, proofs.0), proofs.1))
  }

  function TakeHeader(b: seq<Byte>): Taken<Header> {
    var base :- TakeBase(b);
    var counts :- TakeCounts(base.1);
    var flags :- Take32(counts.1);
    var reserved1 :- Take32(flags.1);
    Ok((Header(base.0, counts.0, flags.0), reserved1.1))
  }

  function PutBase(x: Base, t: seq<Byte>): seq<Byte> {
    Put32(x.rowGroups) + (Put32(x.chunks) + (Put32(x.stats) + (Put32(x.proofs) + t)))
  }

  /** The header words a reader ignores. */
  datatype Ignored = Ignored(reserved0: U16, reserved1: U32)

  const UNUSED: Ignored := Ignored(0, 0)

  function PutCounts(c: Counts, reserved: U16, t: seq<Byte>): seq<Byte> {
    Put32(c.rowGroups) + (Put32(c.chunks) + (Put32(c.stats) + (Put16(c.keys) + (Put16(reserved) + (Put32(c.proofs) + t)))))
  }

  function PutHeader(h: Header, i: Ignored, t: seq<Byte>): seq<Byte> {
    PutBase(h.base, PutCounts(h.counts, i.reserved0, Put32(h.flags) + (Put32(i.reserved1) + t)))
  }

  lemma BaseRead(x: Base, t: seq<Byte>)
    ensures TakeBase(PutBase(x, t)) == Ok((x, t))
  {
    TakePut32(x.rowGroups, Put32(x.chunks) + (Put32(x.stats) + (Put32(x.proofs) + t)));
    TakePut32(x.chunks, Put32(x.stats) + (Put32(x.proofs) + t));
    TakePut32(x.stats, Put32(x.proofs) + t);
    TakePut32(x.proofs, t);
  }

  lemma CountsRead(c: Counts, reserved: U16, t: seq<Byte>)
    ensures TakeCounts(PutCounts(c, reserved, t)) == Ok((c, t))
  {
    var last := Put32(c.proofs) + t;
    TakePut32(c.rowGroups, Put32(c.chunks) + (Put32(c.stats) + (Put16(c.keys) + (Put16(reserved) + last))));
    TakePut32(c.chunks, Put32(c.stats) + (Put16(c.keys) + (Put16(reserved) + last)));
    TakePut32(c.stats, Put16(c.keys) + (Put16(reserved) + last));
    TakePut16(c.keys, Put16(reserved) + last);
    TakePut16(reserved, last);
    TakePut32(c.proofs, t);
  }

  lemma HeaderRead(h: Header, i: Ignored, t: seq<Byte>)
    ensures TakeHeader(PutHeader(h, i, t)) == Ok((h, t))
  {
    var flags := Put32(h.flags) + (Put32(i.reserved1) + t);
    BaseRead(h.base, PutCounts(h.counts, i.reserved0, flags));
    CountsRead(h.counts, i.reserved0, flags);
    TakePut32(h.flags, Put32(i.reserved1) + t);
    TakePut32(i.reserved1, t);
  }

  lemma BaseWritten(b: seq<Byte>)
    requires TakeBase(b).Ok?
    ensures b == PutBase(TakeBase(b).value.0, TakeBase(b).value.1)
  {
    var rowGroups := Take32(b).value;
    var chunks := Take32(rowGroups.1).value;
    PutTake(b);
    PutTake(rowGroups.1);
    PutTake(chunks.1);
    PutTake(Take32(chunks.1).value.1);
  }

  lemma CountsWritten(b: seq<Byte>) returns (reserved: U16)
    requires TakeCounts(b).Ok?
    ensures b == PutCounts(TakeCounts(b).value.0, reserved, TakeCounts(b).value.1)
  {
    var rowGroups := Take32(b).value;
    var chunks := Take32(rowGroups.1).value;
    var stats := Take32(chunks.1).value;
    var keys := Take16(stats.1).value;
    PutTake(b);
    PutTake(rowGroups.1);
    PutTake(chunks.1);
    PutTake(stats.1);
    PutTake(keys.1);
    PutTake(Take16(keys.1).value.1);
    reserved := Take16(keys.1).value.0;
  }

  /** An accepted header is its fields and some ignored words. */
  lemma HeaderWritten(b: seq<Byte>) returns (i: Ignored)
    requires TakeHeader(b).Ok?
    ensures b == PutHeader(TakeHeader(b).value.0, i, TakeHeader(b).value.1)
  {
    var base := TakeBase(b).value;
    var counts := TakeCounts(base.1).value;
    var flags := Take32(counts.1).value;
    BaseWritten(b);
    var reserved := CountsWritten(base.1);
    PutTake(counts.1);
    PutTake(flags.1);
    i := Ignored(reserved, Take32(flags.1).value.0);
  }

  lemma HeaderExtends(h: Header, i: Ignored, t: seq<Byte>, u: seq<Byte>)
    ensures PutHeader(h, i, t) + u == PutHeader(h, i, t + u)
  {
    var flags := Put32(h.flags) + (Put32(i.reserved1) + t);
    var last := Put32(h.counts.proofs) + flags;
    Regroup(Put32(i.reserved1), t, u);
    Regroup(Put32(h.flags), Put32(i.reserved1) + t, u);
    Regroup(Put32(h.counts.proofs), flags, u);
    Regroup(Put16(i.reserved0), last, u);
    Join4(Put32(h.counts.rowGroups), Put32(h.counts.chunks), Put32(h.counts.stats), Put16(h.counts.keys),
          Put16(i.reserved0) + last, u);
    Join4(Put32(h.base.rowGroups), Put32(h.base.chunks), Put32(h.base.stats), Put32(h.base.proofs),
          PutCounts(h.counts, i.reserved0, flags), u);
  }

  // ---------------------------------------------------------------- sections

  /** A counted section: its records must end before the trailer. */
  function TakeSection<T(!new)>(take: seq<Byte> -> Taken<T>, w: nat, b: seq<Byte>, count: nat): Taken<seq<T>> {
    if Fits(b, count, w) then TakeAll(take, b, count) else Err(CorruptFile)
  }

  /** Two sections in a row. */
  function TakeTwo<T(!new), U(!new)>(
    first: seq<Byte> -> Taken<T>, w: nat, m: nat, second: seq<Byte> -> Taken<U>, v: nat, n: nat, b: seq<Byte>): Taken<(seq<T>, seq<U>)>
  {
    var xs :- TakeSection(first, w, b, m);
    var ys :- TakeSection(second, v, xs.1, n);
    Ok(((xs.0, ys.0), ys.1))
  }

  function TakeTables(c: Counts, b: seq<Byte>): Taken<(seq<RowGroup>, seq<Chunk>)> {
    TakeTwo(TakeRowGroup, 120, c.rowGroups, TakeChunk, 96, c.chunks, b)
  }

  function TakeIndex(c: Counts, b: seq<Byte>): Taken<Index> {
    var tables :- TakeTables(c, b);
    var stats :- TakeSection(TakeStats, 48, tables.1, c.stats);
    Ok((Index(tables.0.0, tables.0.1, stats.0), stats.1))
  }

  function TakeOrdering(c: Counts, b: seq<Byte>): Taken<Ordering> {
    var both :- TakeTwo(TakeKey, 8, c.keys, TakeProof, 72, c.proofs, b);
    Ok((Ordering(both.0.0, both.0.1), both.1))
  }

  function TakeRecords(c: Counts, b: seq<Byte>): Taken<Records> {
    var index :- TakeIndex(c, b);
    var ordering :- TakeOrdering(c, index.1);
    Ok((Records(index.0, ordering.0), ordering.1))
  }

  /** What a writer accepts: counts in range and each record admissible. */
  predicate IndexOk(x: Index) {
    && |x.rowGroups| < 0x1_0000_0000 && |x.chunks| < 0x1_0000_0000 && |x.stats| < 0x1_0000_0000
    && Admits(ChunkOk, x.chunks) && Admits(StatsOk, x.stats)
  }

  predicate OrderingOk(o: Ordering) {
    |o.keys| < 0x1_0000 && |o.proofs| < 0x1_0000_0000 && Admits(ProofOk, o.proofs)
  }

  predicate Encodable(r: Records) { IndexOk(r.index) && OrderingOk(r.ordering) }

  function CountsOf(r: Records): Counts
    requires Encodable(r)
  {
    Counts(|r.index.rowGroups|, |r.index.chunks|, |r.index.stats|, |r.ordering.keys|, |r.ordering.proofs|)
  }

  function PutIndex(x: Index, t: seq<Byte>): seq<Byte> {
    PutAll(PutRowGroup, x.rowGroups, PutAll(PutChunk, x.chunks, PutAll(PutStats, x.stats, t)))
  }

  function PutOrdering(o: Ordering, t: seq<Byte>): seq<Byte> { PutAll(PutKey, o.keys, PutAll(PutProof, o.proofs, t)) }

  function PutRecords(r: Records, t: seq<Byte>): seq<Byte> { PutIndex(r.index, PutOrdering(r.ordering, t)) }

  /** A section in front of bytes that keep the trailer is read back. */
  lemma SectionRead<T(!new)>(
    take: seq<Byte> -> Taken<T>, put: (T, seq<Byte>) -> seq<Byte>, ok: T -> bool, w: nat, xs: seq<T>, t: seq<Byte>)
    requires Reads(take, put, ok) && Admits(ok, xs) && Width(take, w) && |t| >= 4
    ensures TakeSection(take, w, PutAll(put, xs, t), |xs|) == Ok((xs, t))
    ensures |PutAll(put, xs, t)| >= 4
  {
    TakePutAll(take, put, ok, xs, t);
    TakeAllWidth(take, w, PutAll(put, xs, t), |xs|);
  }

  lemma RowGroupsRead(xs: seq<RowGroup>, t: seq<Byte>)
    requires |t| >= 4
    ensures TakeSection(TakeRowGroup, 120, PutAll(PutRowGroup, xs, t), |xs|) == Ok((xs, t))
    ensures |PutAll(PutRowGroup, xs, t)| >= 4
  {
    forall x, t ensures TakeRowGroup(PutRowGroup(x, t)) == Ok((x, t)) {
      RowGroupRead(x, t);
    }
    SectionRead(TakeRowGroup, PutRowGroup, x => true, 120, xs, t);
  }

  lemma ChunksRead(xs: seq<Chunk>, t: seq<Byte>)
    requires |t| >= 4
    ensures TakeSection(TakeChunk, 96, PutAll(PutChunk, xs, t), |xs|) == Ok((xs, t))
    ensures |PutAll(PutChunk, xs, t)| >= 4
  {
    forall x, t ensures TakeChunk(PutChunk(x, t)) == Ok((x, t)) {
      ChunkRead(x, t);
    }
    SectionRead(TakeChunk, PutChunk, x => true, 96, xs, t);
  }

  lemma StatsSectionRead(xs: seq<Stats>, t: seq<Byte>)
    requires |t| >= 4 && Admits(StatsOk, xs)
    ensures TakeSection(TakeStats, 48, PutAll(PutStats, xs, t), |xs|) == Ok((xs, t))
    ensures |PutAll(PutStats, xs, t)| >= 4
  {
    forall x, t | StatsOk(x) ensures TakeStats(PutStats(x, t)) == Ok((x, t)) {
      StatsRead(x, t);
    }
    SectionRead(TakeStats, PutStats, StatsOk, 48, xs, t);
  }

  lemma KeysRead(xs: seq<OrderingKey>, t: seq<Byte>)
    requires |t| >= 4
    ensures TakeSection(TakeKey, 8, PutAll(PutKey, xs, t), |xs|) == Ok((xs, t))
    ensures |PutAll(PutKey, xs, t)| >= 4
  {
    forall x, t ensures TakeKey(PutKey(x, t)) == Ok((x, t)) {
      KeyRead(x, t);
    }
    SectionRead(TakeKey, PutKey, x => true, 8, xs, t);
  }

  lemma ProofsRead(xs: seq<OrderingProof>, t: seq<Byte>)
    requires |t| >= 4
    ensures TakeSection(TakeProof, 72, PutAll(PutProof, xs, t), |xs|) == Ok((xs, t))
    ensures |PutAll(PutProof, xs, t)| >= 4
  {
    forall x, t ensures TakeProof(PutProof(x, t)) == Ok((x, t)) {
      ProofRead(x, t);
    }
    SectionRead(TakeProof, PutProof, x => true, 72, xs, t);
  }

  lemma IndexRead(c: Counts, x: Index, t: seq<Byte>)
    requires IndexOk(x) && |t| >= 4
    requires c.rowGroups == |x.rowGroups| && c.chunks == |x.chunks| && c.stats == |x.stats|
    ensures TakeIndex(c, PutIndex(x, t)) == Ok((x, t))
  {
    var stats := PutAll(PutStats, x.stats, t);
    StatsSectionRead(x.stats, t);
    ChunksRead(x.chunks, stats);
    RowGroupsRead(x.rowGroups, PutAll(PutChunk, x.chunks, stats));
  }

  lemma OrderingRead(c: Counts, o: Ordering, t: seq<Byte>)
    requires OrderingOk(o) && |t| >= 4 && c.keys == |o.keys| && c.proofs == |o.proofs|
    ensures TakeOrdering(c, PutOrdering(o, t)) == Ok((o, t)) && |PutOrdering(o, t)| >= 4
  {
    ProofsRead(o.proofs, t);
    KeysRead(o.keys, PutAll(PutProof, o.proofs, t));
  }

  lemma RecordsRead(r: Records, t: seq<Byte>)
    requires Encodable(r) && |t| >= 4
    ensures TakeRecords(CountsOf(r), PutRecords(r, t)) == Ok((r, t))
  {
    OrderingRead(CountsOf(r), r.ordering, t);
    IndexRead(CountsOf(r), r.index, PutOrdering(r.ordering, t));
  }

  // ---------------------------------------------------------------- the object

  datatype Contents = Contents(base: Base, flags: U32, records: Records)

  function ParseZeroed(z: seq<Byte>): Result<Contents, FormatError> {
    var b :- TakeEnvelope(MAGIC, HEADER_LEN, z);
    var header :- TakeHeader(b);
    var records :- TakeRecords(header.0.counts, header.1);
    Ok(Contents(header.0.base, header.0.flags, records.0))
  }

  function Parse(bytes: seq<Byte>): Result<Delta, FormatError> {
    var z :- Unseal(bytes);
    var c :- ParseZeroed(z);
    Ok(Delta(c.base, c.flags, c.records, Trailer(bytes)))
  }

  function Body(c: Contents, t: seq<Byte>): seq<Byte>
    requires Encodable(c.records)
  {
    Envelope(MAGIC, HEADER_LEN) + PutHeader(Header(c.base, CountsOf(c.records), c.flags), UNUSED, PutRecords(c.records, t))
  }

  /** `write_to` of a version-1 delta. */
  function Print(c: Contents): Result<seq<Byte>, FormatError> {
    if Encodable(c.records) then Ok(Seal(Body(c, []))) else Err(InvalidInput)
  }

  lemma BodyRead(c: Contents, t: seq<Byte>)
    requires Encodable(c.records) && |t| >= 4
    ensures ParseZeroed(Body(c, t)) == Ok(c)
  {
    var h, records := Header(c.base, CountsOf(c.records), c.flags), PutRecords(c.records, t);
    EnvelopeExact(MAGIC, HEADER_LEN, Body(c, t), PutHeader(h, UNUSED, records));
    HeaderRead(h, UNUSED, records);
    RecordsRead(c.records, t);
  }

  lemma RecordsExtend(r: Records, t: seq<Byte>, u: seq<Byte>)
    ensures PutRecords(r, t) + u == PutRecords(r, t + u)
  {
    AllExtend();
    var ordering := PutOrdering(r.ordering, t);
    PutAllExtends(PutProof, r.ordering.proofs, t, u);
    PutAllExtends(PutKey, r.ordering.keys, PutAll(PutProof, r.ordering.proofs, t), u);
    var stats := PutAll(PutStats, r.index.stats, ordering);
    PutAllExtends(PutStats, r.index.stats, ordering, u);
    PutAllExtends(PutChunk, r.index.chunks, stats, u);
    PutAllExtends(PutRowGroup, r.index.rowGroups, PutAll(PutChunk, r.index.chunks, stats), u);
  }

  lemma BodyExtends(c: Contents, t: seq<Byte>, u: seq<Byte>)
    requires Encodable(c.records)
    ensures Body(c, t) + u == Body(c, t + u)
  {
    var h, records := Header(c.base, CountsOf(c.records), c.flags), PutRecords(c.records, t);
    RecordsExtend(c.records, t, u);
    HeaderExtends(h, UNUSED, records, u);
    Regroup(Envelope(MAGIC, HEADER_LEN), PutHeader(h, UNUSED, records), u);
  }

  lemma BodyZeros(c: Contents)
    requires Encodable(c.records)
    ensures Body(c, []) + Zeros(4) == Body(c, Zeros(4))
  {
    BodyExtends(c, [], Zeros(4));
    EmptyPlus(Zeros(4));
  }

  lemma EmptyPlus(t: seq<Byte>)
    ensures [] + t == t
  {
  }

  lemma BodyParses(c: Contents)
    requires Encodable(c.records)
    ensures ParseZeroed(Body(c, []) + Zeros(4)) == Ok(c)
  {
    BodyZeros(c);
    BodyRead(c, Zeros(4));
  }

  /** Reading a written delta returns it. */
  lemma ParseOfPrint(c: Contents)
    requires Encodable(c.records)
    ensures Print(c) == Ok(Seal(Body(c, [])))
    ensures Parse(Seal(Body(c, []))) == Ok(Delta(c.base, c.flags, c.records, Checksum(Body(c, []) + Zeros(4))))
  {
    BodyParses(c);
    SealedParses(Body(c, []), c);
  }

  lemma SealedParses(body: seq<Byte>, c: Contents)
    requires ParseZeroed(body + Zeros(4)) == Ok(c)
    ensures Parse(Seal(body)) == Ok(Delta(c.base, c.flags, c.records, Checksum(body + Zeros(4))))
  {
    SealOpens(body);
  }

  lemma SectionEnds<T(!new)>(take: seq<Byte> -> Taken<T>, w: nat, b: seq<Byte>, count: nat)
    requires Width(take, w) && TakeSection(take, w, b, count).Ok?
    ensures var t := TakeSection(take, w, b, count).value.1;
            |b| == count * w + |t| && |t| >= 4
  {
    TakeAllWidth(take, w, b, count);
  }

  lemma IndexEnds(c: Counts, b: seq<Byte>)
    requires TakeIndex(c, b).Ok?
    ensures |b| == 120 * c.rowGroups + 96 * c.chunks + 48 * c.stats + |TakeIndex(c, b).value.1|
    ensures |TakeIndex(c, b).value.1| >= 4
  {
    var rowGroups := TakeSection(TakeRowGroup, 120, b, c.rowGroups).value;
    var chunks := TakeSection(TakeChunk, 96, rowGroups.1, c.chunks).value;
    SectionEnds(TakeRowGroup, 120, b, c.rowGroups);
    SectionEnds(TakeChunk, 96, rowGroups.1, c.chunks);
    SectionEnds(TakeStats, 48, chunks.1, c.stats);
  }

  lemma OrderingEnds(c: Counts, b: seq<Byte>)
    requires TakeOrdering(c, b).Ok?
    ensures |b| == 8 * c.keys + 72 * c.proofs + |TakeOrdering(c, b).value.1| && |TakeOrdering(c, b).value.1| >= 4
  {
    SectionEnds(TakeKey, 8, b, c.keys);
    SectionEnds(TakeProof, 72, TakeSection(TakeKey, 8, b, c.keys).value.1, c.proofs);
  }

  /** An accepted delta's records take exactly their widths and leave every trailer byte unread. */
  lemma RecordsEndBeforeTrailer(c: Counts, b: seq<Byte>)
    requires TakeRecords(c, b).Ok?
    ensures var t := TakeRecords(c, b).value.1;
            && |t| >= 4
            && |b| == 120 * c.rowGroups + 96 * c.chunks + 48 * c.stats + 8 * c.keys + 72 * c.proofs + |t|
  {
    IndexEnds(c, b);
    OrderingEnds(c, TakeIndex(c, b).value.1);
  }

  // ---------------------------------------------------------------- as it runs

  /** `size_of` each record type, as the target lays it out. */
  datatype Sizes = Sizes(rowGroup: nat, chunk: nat, stats: nat, key: nat, proof: nat)

  function Retained(s: Sizes, c: Counts): nat {
    c.rowGroups * s.rowGroup + c.chunks * s.chunk + c.stats * s.stats + c.keys * s.key + c.proofs * s.proof
  }

  /** One section checked in the first pass. */
  method CheckSection<T(!new)>(cur: Cursor, count: nat, take: seq<Byte> -> Taken<T>, w: nat)
    returns (res: Result<(), FormatError>)
    requires cur.Valid() && Width(take, w)
    modifies cur
    ensures cur.Valid()
    ensures match TakeSection(take, w, old(cur.Rest()), count)
            case Ok(taken) => res == Ok(()) && cur.Rest() == taken.1
            case Err(e) => res == Err(e)
  {
    if |cur.bytes| - cur.pos < 4 || count * w > |cur.bytes| - cur.pos - 4 {
      return Err(CorruptFile);
    }
    res := ValidateRecords(cur, count, take, w);
  }

  /** The first pass over all five sections. */
  method CheckRecords(cur: Cursor, c: Counts) returns (res: Result<(), FormatError>)
    requires cur.Valid()
    modifies cur
    ensures cur.Valid()
    ensures match TakeRecords(c, old(cur.Rest()))
            case Ok(_) => res == Ok(())
            case Err(e) => res == Err(e)
  {
    res := CheckSection(cur, c.rowGroups, TakeRowGroup, 120);
    if res.Err? {
      return;
    }
    res := CheckSection(cur, c.chunks, TakeChunk, 96);
    if res.Err? {
      return;
    }
    res := CheckSection(cur, c.stats, TakeStats, 48);
    if res.Err? {
      return;
    }
    res := CheckSection(cur, c.keys, TakeKey, 8);
    if res.Err? {
      return;
    }
    res := CheckSection(cur, c.proofs, TakeProof, 72);
  }

  method ReadIndex(cur: Cursor, c: Counts) returns (x: Index)
    requires cur.Valid() && TakeIndex(c, cur.Rest()).Ok?
    modifies cur
    ensures cur.Valid() && TakeIndex(c, old(cur.Rest())) == Ok((x, cur.Rest()))
  {
    var rowGroups := ReadRecords(cur, c.rowGroups, TakeRowGroup, 120);
    var chunks := ReadRecords(cur, c.chunks, TakeChunk, 96);
    var stats := ReadRecords(cur, c.stats, TakeStats, 48);
    x := Index(rowGroups, chunks, stats);
  }

  method ReadOrdering(cur: Cursor, c: Counts) returns (o: Ordering)
    requires cur.Valid() && TakeOrdering(c, cur.Rest()).Ok?
    modifies cur
    ensures cur.Valid() && TakeOrdering(c, old(cur.Rest())) == Ok((o, cur.Rest()))
  {
    var keys := ReadRecords(cur, c.keys, TakeKey, 8);
    var proofs := ReadRecords(cur, c.proofs, TakeProof, 72);
    o := Ordering(keys, proofs);
  }

  /** The second pass, over records the first has accepted. */
  method ReadAll(cur: Cursor, c: Counts) returns (r: Records)
    requires cur.Valid() && TakeRecords(c, cur.Rest()).Ok?
    modifies cur
    ensures cur.Valid() && TakeRecords(c, old(cur.Rest())) == Ok((r, cur.Rest()))
  {
    var index := ReadIndex(cur, c);
    var ordering := ReadOrdering(cur, c);
    r := Records(index, ordering);
  }

  /** What the budgeted reader returns when the budget suffices. */
  ghost function Materialized(s: Sizes, c: Counts, b: seq<Byte>): Result<Records, FormatError> {
    var r :- TakeRecords(c, b);
    if Retained(s, c) >= U64_LIMIT then Err(CorruptFile) else Ok(r.0)
  }

  method ReadSections(cur: Cursor, c: Counts, sizes: Sizes, budget: Budget) returns (res: Result<Records, FormatError>)
    requires cur.Valid() && budget.Valid()
    modifies cur, budget
    ensures budget.Valid()
    ensures Budgeted(Materialized(sizes, c, old(cur.Rest())), Retained(sizes, c),
                     old(budget.Remaining()), res, budget.charged - old(budget.charged))
  {
    var start := cur.pos;
    var checked := CheckRecords(cur, c);
    if checked.Err? {
      return Err(checked.error);
    }
    var retained := Retained(sizes, c);
    if retained >= U64_LIMIT {
      return Err(CorruptFile);
    }
    var charge := budget.Charge(retained);
    if charge.Err? {
      return Err(charge.error);
    }
    cur.pos := start;
    var r := ReadAll(cur, c);
    return Ok(r);
  }

  method ReadCounts(cur: Cursor) returns (res: Result<Header, FormatError>)
    requires cur.Valid()
    modifies cur
    ensures cur.Valid() && Moved(TakeHeader(old(cur.Rest())), res, cur.Rest())
  {
    var base := ReadBase(cur);
    if base.Err? {
      return Err(base.error);
    }
    var counts := ReadSectionCounts(cur);
    if counts.Err? {
      return Err(counts.error);
    }
    var flags := cur.ReadU32();
    if flags.Err? {
      return Err(flags.error);
    }
    var reserved := cur.ReadU32();
    if reserved.Err? {
      return Err(reserved.error);
    }
    return Ok(Header(base.value, counts.value, flags.value));
  }

  method ReadBase(cur: Cursor) returns (res: Result<Base, FormatError>)
    requires cur.Valid()
    modifies cur
    ensures cur.Valid() && Moved(TakeBase(old(cur.Rest())), res, cur.Rest())
  {
    var rowGroups := cur.ReadU32();
    if rowGroups.Err? {
      return Err(rowGroups.error);
    }
    var chunks := cur.ReadU32();
    if chunks.Err? {
      return Err(chunks.error);
    }
    var stats := cur.ReadU32();
    if stats.Err? {
      return Err(stats.error);
    }
    var proofs := cur.ReadU32();
    if proofs.Err? {
      return Err(proofs.error);
    }
    return Ok(Base(rowGroups.value, chunks.value, stats.value, proofs.value));
  }

  method ReadSectionCounts(cur: Cursor) returns (res: Result<Counts, FormatError>)
    requires cur.Valid()
    modifies cur
    ensures cur.Valid() && Moved(TakeCounts(old(cur.Rest())), res, cur.Rest())
  {
    var rowGroups := cur.ReadU32();
    if rowGroups.Err? {
      return Err(rowGroups.error);
    }
    var chunks := cur.ReadU32();
    if chunks.Err? {
      return Err(chunks.error);
    }
    var stats := cur.ReadU32();
    if stats.Err? {
      return Err(stats.error);
    }
    var keys := cur.ReadU16();
    if keys.Err? {
      return Err(keys.error);
    }
    var reserved := cur.ReadU16();
    if reserved.Err? {
      return Err(reserved.error);
    }
    var proofs := cur.ReadU32();
    if proofs.Err? {
      return Err(proofs.error);
    }
    return Ok(Counts(rowGroups.value, chunks.value, stats.value, keys.value, proofs.value));
  }

  /** The bytes a materialized delta keeps. */
  function RecordBytes(s: Sizes, r: Records): nat {
    |r.index.rowGroups| * s.rowGroup + |r.index.chunks| * s.chunk + |r.index.stats| * s.stats
    + |r.ordering.keys| * s.key + |r.ordering.proofs| * s.proof
  }

  lemma IndexCounts(c: Counts, b: seq<Byte>)
    requires TakeIndex(c, b).Ok?
    ensures var x := TakeIndex(c, b).value.0;
            |x.rowGroups| == c.rowGroups && |x.chunks| == c.chunks && |x.stats| == c.stats
  {
    var rowGroups := TakeSection(TakeRowGroup, 120, b, c.rowGroups).value;
    var chunks := TakeSection(TakeChunk, 96, rowGroups.1, c.chunks).value;
    TakeAllWidth(TakeRowGroup, 120, b, c.rowGroups);
    TakeAllWidth(TakeChunk, 96, rowGroups.1, c.chunks);
    TakeAllWidth(TakeStats, 48, chunks.1, c.stats);
  }

  lemma OrderingCounts(c: Counts, b: seq<Byte>)
    requires TakeOrdering(c, b).Ok?
    ensures var o := TakeOrdering(c, b).value.0;
            |o.keys| == c.keys && |o.proofs| == c.proofs
  {
    var keys := TakeSection(TakeKey, 8, b, c.keys).value;
    TakeAllWidth(TakeKey, 8, b, c.keys);
    TakeAllWidth(TakeProof, 72, keys.1, c.proofs);
  }

  lemma RetainedIsRecordBytes(s: Sizes, c: Counts, b: seq<Byte>)
    requires TakeRecords(c, b).Ok?
    ensures RecordBytes(s, TakeRecords(c, b).value.0) == Retained(s, c)
  {
    IndexCounts(c, b);
    OrderingCounts(c, TakeIndex(c, b).value.1);
  }

  /** A structurally valid delta whose size cannot be stated in 64 bits is refused as corrupt. */
  ghost function Accepted(s: Sizes, bytes: seq<Byte>): Result<Delta, FormatError> {
    var d :- Parse(bytes);
    if RecordBytes(s, d.records) >= U64_LIMIT then Err(CorruptFile) else Ok(d)
  }

  ghost function AcceptedBytes(s: Sizes, bytes: seq<Byte>): nat {
    if Parse(bytes).Ok? then RecordBytes(s, Parse(bytes).value.records) else 0
  }

  /** `read_from_bytes_with_budget`. */
  method Read(bytes: seq<Byte>, sizes: Sizes, budget: Budget) returns (res: Result<Delta, FormatError>)
    requires budget.Valid()
    modifies budget
    ensures budget.Valid()
    ensures Budgeted(Accepted(sizes, bytes), AcceptedBytes(sizes, bytes),
                     old(budget.Remaining()), res, budget.charged - old(budget.charged))
  {
    if !Sealed(bytes) {
      return Err(CorruptFile);
    }
    var cur := new Cursor(bytes[..|bytes| - 4] + Zeros(4));
    var envelope := ReadEnvelope(cur, MAGIC, HEADER_LEN);
    if envelope.Err? {
      return Err(envelope.error);
    }
    var header := ReadCounts(cur);
    if header.Err? {
      return Err(header.error);
    }
    ghost var b := cur.Rest();
    if TakeRecords(header.value.counts, b).Ok? {
      RetainedIsRecordBytes(sizes, header.value.counts, b);
    }
    var r := ReadSections(cur, header.value.counts, sizes, budget);
    if r.Err? {
      return Err(r.error);
    }
    return Ok(Delta(header.value.base, header.value.flags, r.value, Trailer(bytes)));
  }

  lemma {:induction false} PutAllSnoc<T(!new)>(put: (T, seq<Byte>) -> seq<Byte>, xs: seq<T>, x: T, t: seq<Byte>)
    ensures PutAll(put, xs + [x], t) == PutAll(put, xs, put(x, t))
    decreases |xs|
  {
    if xs == [] {
      assert xs + [x] == [x] && [x][1..] == [];
    } else {
      assert (xs + [x])[1..] == xs[1..] + [x];
      PutAllSnoc(put, xs[1..], x, t);
    }
  }

  /** A section appended record by record. */
  method AppendRecords<T(!new)>(buf: seq<Byte>, xs: seq<T>, put: (T, seq<Byte>) -> seq<Byte>) returns (out: seq<Byte>)
    requires Extends(put)
    ensures out == buf + PutAll(put, xs, [])
  {
    out := buf;
    for i := 0 to |xs|
      invariant out == buf + PutAll(put, xs[..i], [])
    {
      assert xs[..i + 1] == xs[..i] + [xs[i]];
      PutAllSnoc(put, xs[..i], xs[i], []);
      PutAllExtends(put, xs[..i], [], put(xs[i], []));
      EmptyPlus(put(xs[i], []));
      Regroup(buf, PutAll(put, xs[..i], []), put(xs[i], []));
      out := out + put(xs[i], []);
    }
    assert xs[..|xs|] == xs;
  }

  /** Sections put one after another are sections appended one after another. */
  lemma SectionAppends<T(!new)>(put: (T, seq<Byte>) -> seq<Byte>, xs: seq<T>, u: seq<Byte>)
    requires Extends(put)
    ensures PutAll(put, xs, u) == PutAll(put, xs, []) + u
  {
    PutAllExtends(put, xs, [], u);
    EmptyPlus(u);
  }

  lemma AllExtend()
    ensures Extends(PutRowGroup) && Extends(PutChunk) && Extends(PutStats) && Extends(PutKey) && Extends(PutProof)
  {
    forall x: RowGroup, t, u ensures PutRowGroup(x, t) + u == PutRowGroup(x, t + u) {
      RowGroupExtends(x, t, u);
    }
    forall x: Chunk, t, u ensures PutChunk(x, t) + u == PutChunk(x, t + u) {
      ChunkExtends(x, t, u);
    }
    forall x: Stats, t, u ensures PutStats(x, t) + u == PutStats(x, t + u) {
      StatsExtends(x, t, u);
    }
    forall x: OrderingKey, t, u ensures PutKey(x, t) + u == PutKey(x, t + u) {
      KeyExtends(x, t, u);
    }
    forall x: OrderingProof, t, u ensures PutProof(x, t) + u == PutProof(x, t + u) {
      ProofExtends(x, t, u);
    }
  }

  /** `write_to`: header and sections appended to a buffer, then sealed. */
  method Write(c: Contents) returns (res: Result<seq<Byte>, FormatError>)
    ensures res == Print(c)
  {
    if !Encodable(c.records) {
      return Err(InvalidInput);
    }
    AllExtend();
    var h := Header(c.base, CountsOf(c.records), c.flags);
    var buf := Envelope(MAGIC, HEADER_LEN) + PutHeader(h, UNUSED, []);
    buf := AppendRecords(buf, c.records.index.rowGroups, PutRowGroup);
    buf := AppendRecords(buf, c.records.index.chunks, PutChunk);
    buf := AppendRecords(buf, c.records.index.stats, PutStats);
    buf := AppendRecords(buf, c.records.ordering.keys, PutKey);
    buf := AppendRecords(buf, c.records.ordering.proofs, PutProof);
    RecordsAppended(c, buf);
    var sum := Checksum(buf + Zeros(4));
    return Ok(buf + Put32(sum));
  }

  lemma RecordsAppended(c: Contents, buf: seq<Byte>)
    requires Encodable(c.records)
    requires var x, o := c.records.index, c.records.ordering;
             buf == Envelope(MAGIC, HEADER_LEN) + PutHeader(Header(c.base, CountsOf(c.records), c.flags), UNUSED, [])
                    + PutAll(PutRowGroup, x.rowGroups, []) + PutAll(PutChunk, x.chunks, []) + PutAll(PutStats, x.stats, [])
                    + PutAll(PutKey, o.keys, []) + PutAll(PutProof, o.proofs, [])
    ensures buf == Body(c, [])
  {
    AllExtend();
    var x, o := c.records.index, c.records.ordering;
    var head := Envelope(MAGIC, HEADER_LEN);
    var h := Header(c.base, CountsOf(c.records), c.flags);
    var proofs := PutAll(PutProof, o.proofs, []);
    var keys := PutAll(PutKey, o.keys, proofs);
    var stats := PutAll(PutStats, x.stats, keys);
    var chunks := PutAll(PutChunk, x.chunks, stats);
    SectionAppends(PutKey, o.keys, proofs);
    SectionAppends(PutStats, x.stats, keys);
    SectionAppends(PutChunk, x.chunks, stats);
    SectionAppends(PutRowGroup, x.rowGroups, chunks);
    HeaderExtends(h, UNUSED, [], PutAll(PutRowGroup, x.rowGroups, chunks));
    EmptyPlus(PutAll(PutRowGroup, x.rowGroups, chunks));
    Unnest(head, PutHeader(h, UNUSED, []), PutAll(PutRowGroup, x.rowGroups, []), PutAll(PutChunk, x.chunks, []),
           PutAll(PutStats, x.stats, []), PutAll(PutKey, o.keys, []), proofs);
  }

  lemma Unnest(a: seq<Byte>, b: seq<Byte>, c: seq<Byte>, d: seq<Byte>, e: seq<Byte>, f: seq<Byte>, g: seq<Byte>)
    ensures a + b + c + d + e + f + g == a + (b + (c + (d + (e + (f + g)))))
  {
    Regroup(a + b + c + d + e, f, g);
    Regroup(a + b + c + d, e, f + g);
    Regroup(a + b + c, d, e + (f + g));
    Regroup(a + b, c, d + (e + (f + g)));
    Regroup(a, b, c + (d + (e + (f + g))));
  }
}
