/** Which bytes the delta reader accepts, over all reserved words and slack. */
module OcbDeltaExact {
  import opened Basics
  import opened Bytes
  import opened Crc32c
  import opened OcbReader
  import opened OcbRecords
  import opened OcbDelta

  // ---------------------------------------------------------------- stored sections

  function GroupOf(x: StoredRowGroup): RowGroup { x.group }

  function StatsOf(x: StoredStats): Stats { x.stats }

  predicate Readable(x: StoredStats) { x.Reads() }

  function Itself<T(!new)>(x: T): T { x }

  predicate Any<T(!new)>(x: T) { true }

  datatype StoredIndex = StoredIndex(rowGroups: seq<StoredRowGroup>, chunks: seq<Chunk>, stats: seq<StoredStats>)

  /** The records the stored forms read as. */
  function IndexOf(x: StoredIndex): Index {
    Index(Values(GroupOf, x.rowGroups), x.chunks, Values(StatsOf, x.stats))
  }

  predicate StatsRead(x: StoredIndex) { forall i :: 0 <= i < |x.stats| ==> x.stats[i].Reads() }

  function PutStoredIndex(x: StoredIndex, t: seq<Byte>): seq<Byte> {
    PutAll(PutStoredRowGroup, x.rowGroups, PutAll(PutChunk, x.chunks, PutAll(PutStoredStats, x.stats, t)))
  }

  lemma StoredRowGroupsRead(xs: seq<StoredRowGroup>, t: seq<Byte>)
    requires |t| >= 4
    ensures TakeSection(TakeRowGroup, 120, PutAll(PutStoredRowGroup, xs, t), |xs|)
         == Ok((Values(GroupOf, xs), t))
  {
    forall x: StoredRowGroup, t ensures TakeRowGroup(PutStoredRowGroup(x, t)) == Ok((x.group, t)) {
      StoredRowGroupRead(x, t);
    }
    assert ReadsAs(TakeRowGroup, PutStoredRowGroup, GroupOf, Any);
    TakePutStored(TakeRowGroup, PutStoredRowGroup, GroupOf, Any, xs, t);
    TakeAllWidth(TakeRowGroup, 120, PutAll(PutStoredRowGroup, xs, t), |xs|);
  }

  lemma StoredStatsSectionRead(xs: seq<StoredStats>, t: seq<Byte>)
    requires |t| >= 4 && forall i :: 0 <= i < |xs| ==> xs[i].Reads()
    ensures TakeSection(TakeStats, 48, PutAll(PutStoredStats, xs, t), |xs|)
         == Ok((Values(StatsOf, xs), t))
    ensures |PutAll(PutStoredStats, xs, t)| >= 4
  {
    forall x: StoredStats, t | x.Reads() ensures TakeStats(PutStoredStats(x, t)) == Ok((x.stats, t)) {
      StoredStatsRead(x, t);
    }
    assert ReadsAs(TakeStats, PutStoredStats, StatsOf, Readable);
    TakePutStored(TakeStats, PutStoredStats, StatsOf, Readable, xs, t);
    TakeAllWidth(TakeStats, 48, PutAll(PutStoredStats, xs, t), |xs|);
  }

  lemma StoredIndexRead(c: Counts, x: StoredIndex, t: seq<Byte>)
    requires StatsRead(x) && |t| >= 4
    requires c.rowGroups == |x.rowGroups| && c.chunks == |x.chunks| && c.stats == |x.stats|
    ensures TakeIndex(c, PutStoredIndex(x, t)) == Ok((IndexOf(x), t))
  {
    var stats := PutAll(PutStoredStats, x.stats, t);
    StoredStatsSectionRead(x.stats, t);
    ChunksRead(x.chunks, stats);
    StoredRowGroupsRead(x.rowGroups, PutAll(PutChunk, x.chunks, stats));
  }

  // ---------------------------------------------------------------- accepted sections

  lemma RowGroupsStored(b: seq<Byte>, count: nat) returns (xs: seq<StoredRowGroup>)
    requires TakeSection(TakeRowGroup, 120, b, count).Ok?
    ensures |xs| == count
    ensures Values(GroupOf, xs) == TakeSection(TakeRowGroup, 120, b, count).value.0
    ensures b == PutAll(PutStoredRowGroup, xs, TakeSection(TakeRowGroup, 120, b, count).value.1)
  {
    forall b: seq<Byte> | TakeRowGroup(b).Ok?
      ensures exists x :: Any(x) && GroupOf(x) == TakeRowGroup(b).value.0 && b == PutStoredRowGroup(x, TakeRowGroup(b).value.1)
    {
      var x := RowGroupWritten(b);
      assert Any(x) && GroupOf(x) == TakeRowGroup(b).value.0;
    }
    xs := TakeAllStored(TakeRowGroup, PutStoredRowGroup, GroupOf, Any, b, count);
  }

  lemma StatsStored(b: seq<Byte>, count: nat) returns (xs: seq<StoredStats>)
    requires TakeSection(TakeStats, 48, b, count).Ok?
    ensures |xs| == count && forall i :: 0 <= i < |xs| ==> xs[i].Reads()
    ensures Values(StatsOf, xs) == TakeSection(TakeStats, 48, b, count).value.0
    ensures b == PutAll(PutStoredStats, xs, TakeSection(TakeStats, 48, b, count).value.1)
  {
    forall b: seq<Byte> | TakeStats(b).Ok?
      ensures exists x :: Readable(x) && StatsOf(x) == TakeStats(b).value.0 && b == PutStoredStats(x, TakeStats(b).value.1)
    {
      var x := StatsWritten(b);
      assert Readable(x) && StatsOf(x) == TakeStats(b).value.0;
    }
    xs := TakeAllStored(TakeStats, PutStoredStats, StatsOf, Readable, b, count);
    assert forall i :: 0 <= i < |xs| ==> Readable(xs[i]);
  }

  /** A section whose records are exactly their bytes. */
  lemma PlainStored<T(!new)>(take: seq<Byte> -> Taken<T>, put: (T, seq<Byte>) -> seq<Byte>, w: nat, b: seq<Byte>, count: nat)
    requires forall b :: take(b).Ok? ==> b == put(take(b).value.0, take(b).value.1)
    requires TakeSection(take, w, b, count).Ok?
    ensures var (xs, t) := TakeSection(take, w, b, count).value;
            |xs| == count && b == PutAll(put, xs, t)
  {
    forall b: seq<Byte> | take(b).Ok?
      ensures exists x :: Any(x) && Itself(x) == take(b).value.0 && b == put(x, take(b).value.1)
    {
      var x := take(b).value.0;
      assert Any(x) && Itself(x) == x;
    }
    var ws := TakeAllStored(take, put, Itself, Any, b, count);
    assert Values(Itself, ws) == ws;
  }

  lemma ChunksStored(b: seq<Byte>, count: nat)
    requires TakeSection(TakeChunk, 96, b, count).Ok?
    ensures var (xs, t) := TakeSection(TakeChunk, 96, b, count).value;
            |xs| == count && b == PutAll(PutChunk, xs, t)
  {
    forall b: seq<Byte> | TakeChunk(b).Ok? ensures b == PutChunk(TakeChunk(b).value.0, TakeChunk(b).value.1) {
      ChunkWritten(b);
    }
    PlainStored(TakeChunk, PutChunk, 96, b, count);
  }

  lemma KeysStored(b: seq<Byte>, count: nat)
    requires TakeSection(TakeKey, 8, b, count).Ok?
    ensures var (xs, t) := TakeSection(TakeKey, 8, b, count).value;
            |xs| == count && b == PutAll(PutKey, xs, t)
  {
    forall b: seq<Byte> | TakeKey(b).Ok? ensures b == PutKey(TakeKey(b).value.0, TakeKey(b).value.1) {
      KeyWritten(b);
    }
    PlainStored(TakeKey, PutKey, 8, b, count);
  }

  lemma ProofsStored(b: seq<Byte>, count: nat)
    requires TakeSection(TakeProof, 72, b, count).Ok?
    ensures var (xs, t) := TakeSection(TakeProof, 72, b, count).value;
            |xs| == count && b == PutAll(PutProof, xs, t)
  {
    forall b: seq<Byte> | TakeProof(b).Ok? ensures b == PutProof(TakeProof(b).value.0, TakeProof(b).value.1) {
      ProofWritten(b);
    }
    PlainStored(TakeProof, PutProof, 72, b, count);
  }

  lemma IndexStored(c: Counts, b: seq<Byte>) returns (x: StoredIndex)
    requires TakeIndex(c, b).Ok?
    ensures StatsRead(x) && IndexOf(x) == TakeIndex(c, b).value.0 && b == PutStoredIndex(x, TakeIndex(c, b).value.1)
    ensures c.rowGroups == |x.rowGroups| && c.chunks == |x.chunks| && c.stats == |x.stats|
  {
    var groups := TakeSection(TakeRowGroup, 120, b, c.rowGroups).value;
    var chunks := TakeSection(TakeChunk, 96, groups.1, c.chunks).value;
    var rowGroups := RowGroupsStored(b, c.rowGroups);
    ChunksStored(groups.1, c.chunks);
    var stats := StatsStored(chunks.1, c.stats);
    x := StoredIndex(rowGroups, chunks.0, stats);
  }

  lemma OrderingStored(c: Counts, b: seq<Byte>)
    requires TakeOrdering(c, b).Ok?
    ensures var (o, t) := TakeOrdering(c, b).value;
            |o.keys| == c.keys && |o.proofs| == c.proofs && b == PutOrdering(o, t)
  {
    KeysStored(b, c.keys);
    ProofsStored(TakeSection(TakeKey, 8, b, c.keys).value.1, c.proofs);
  }

  // ---------------------------------------------------------------- the object

  /** Everything a delta stores, ignored words included. */
  datatype StoredDelta = StoredDelta(base: Base, flags: U32, ignored: Ignored, index: StoredIndex, ordering: Ordering)

  predicate CountsFit(x: StoredDelta) {
    && |x.index.rowGroups| < 0x1_0000_0000 && |x.index.chunks| < 0x1_0000_0000 && |x.index.stats| < 0x1_0000_0000
    && |x.ordering.keys| < 0x1_0000 && |x.ordering.proofs| < 0x1_0000_0000
  }

  function StoredHeader(x: StoredDelta): Header
    requires CountsFit(x)
  {
    Header(x.base,
           Counts(|x.index.rowGroups|, |x.index.chunks|, |x.index.stats|, |x.ordering.keys|, |x.ordering.proofs|),
           x.flags)
  }

  function StoredBody(x: StoredDelta, t: seq<Byte>): seq<Byte>
    requires CountsFit(x)
  {
    Envelope(MAGIC, HEADER_LEN)
    + PutHeader(StoredHeader(x), x.ignored, PutStoredIndex(x.index, PutOrdering(x.ordering, t)))
  }

  /** What a reader keeps of it. */
  function ReadAs(x: StoredDelta): Contents { Contents(x.base, x.flags, Records(IndexOf(x.index), x.ordering)) }

  lemma OrderingReadBack(c: Counts, o: Ordering, t: seq<Byte>)
    requires |t| >= 4 && c.keys == |o.keys| && c.proofs == |o.proofs|
    ensures TakeOrdering(c, PutOrdering(o, t)) == Ok((o, t)) && |PutOrdering(o, t)| >= 4
  {
    ProofsRead(o.proofs, t);
    KeysRead(o.keys, PutAll(PutProof, o.proofs, t));
  }

  lemma StoredBodyRead(x: StoredDelta, t: seq<Byte>)
    requires CountsFit(x) && StatsRead(x.index) && |t| >= 4
    ensures ParseZeroed(StoredBody(x, t)) == Ok(ReadAs(x))
  {
    var h, ordering := StoredHeader(x), PutOrdering(x.ordering, t);
    var records := PutStoredIndex(x.index, ordering);
    EnvelopeExact(MAGIC, HEADER_LEN, StoredBody(x, t), PutHeader(h, x.ignored, records));
    HeaderRead(h, x.ignored, records);
    OrderingReadBack(h.counts, x.ordering, t);
    StoredIndexRead(h.counts, x.index, ordering);
  }

  lemma BodyStored(z: seq<Byte>) returns (x: StoredDelta, t: seq<Byte>)
    requires ParseZeroed(z).Ok?
    ensures CountsFit(x) && StatsRead(x.index) && |t| >= 4
    ensures z == StoredBody(x, t) && ReadAs(x) == ParseZeroed(z).value
  {
    var b := TakeEnvelope(MAGIC, HEADER_LEN, z).value;
    EnvelopeExact(MAGIC, HEADER_LEN, z, b);
    var header := TakeHeader(b).value;
    var ignored := HeaderWritten(b);
    var c := header.0.counts;
    var index := IndexStored(c, header.1);
    var after := TakeIndex(c, header.1).value.1;
    OrderingStored(c, after);
    OrderingEnds(c, after);
    t := TakeOrdering(c, after).value.1;
    x := StoredDelta(header.0.base, header.0.flags, ignored, index, TakeOrdering(c, after).value.0);
  }

  lemma StoredBodyExtends(x: StoredDelta, t: seq<Byte>, u: seq<Byte>)
    requires CountsFit(x)
    ensures StoredBody(x, t) + u == StoredBody(x, t + u)
  {
    var records := PutStoredIndex(x.index, PutOrdering(x.ordering, t));
    StoredRecordsExtend(x.index, x.ordering, t, u);
    HeaderExtends(StoredHeader(x), x.ignored, records, u);
    Regroup(Envelope(MAGIC, HEADER_LEN), PutHeader(StoredHeader(x), x.ignored, records), u);
  }

  lemma StoredRecordsExtend(x: StoredIndex, o: Ordering, t: seq<Byte>, u: seq<Byte>)
    ensures PutStoredIndex(x, PutOrdering(o, t)) + u == PutStoredIndex(x, PutOrdering(o, t + u))
  {
    AllExtend();
    forall g: StoredRowGroup, t, u ensures PutStoredRowGroup(g, t) + u == PutStoredRowGroup(g, t + u) {
      StoredRowGroupExtends(g, t, u);
    }
    forall s: StoredStats, t, u ensures PutStoredStats(s, t) + u == PutStoredStats(s, t + u) {
      StoredStatsExtends(s, t, u);
    }
    var ordering := PutOrdering(o, t);
    PutAllExtends(PutProof, o.proofs, t, u);
    PutAllExtends(PutKey, o.keys, PutAll(PutProof, o.proofs, t), u);
    var stats := PutAll(PutStoredStats, x.stats, ordering);
    PutAllExtends(PutStoredStats, x.stats, ordering, u);
    PutAllExtends(PutChunk, x.chunks, stats, u);
    PutAllExtends(PutStoredRowGroup, x.rowGroups, PutAll(PutChunk, x.chunks, stats), u);
  }

  /** The stored forms `x` and some slack fill the object up to its trailer, and read as `d`. */
  ghost predicate Fills(front: seq<Byte>, x: StoredDelta, slack: seq<Byte>, c: Contents) {
    CountsFit(x) && StatsRead(x.index) && front == StoredBody(x, slack) && ReadAs(x) == c
  }

  ghost predicate Filled(front: seq<Byte>, c: Contents) { exists x, slack :: Fills(front, x, slack, c) }

  /** The bytes of an object that holds the delta, for some reserved words and slack. */
  ghost predicate Holds(bytes: seq<Byte>, d: Delta) {
    Sealed(bytes) && d.crc == Trailer(bytes) && Filled(bytes[..|bytes| - 4], Contents(d.base, d.flags, d.records))
  }

  lemma FilledParses(front: seq<Byte>, x: StoredDelta, slack: seq<Byte>, c: Contents)
    requires Fills(front, x, slack, c)
    ensures ParseZeroed(front + Zeros(4)) == Ok(c)
  {
    StoredBodyExtends(x, slack, Zeros(4));
    StoredBodyRead(x, slack + Zeros(4));
  }

  lemma ParsedFills(front: seq<Byte>) returns (x: StoredDelta, slack: seq<Byte>)
    requires ParseZeroed(front + Zeros(4)).Ok?
    ensures Fills(front, x, slack, ParseZeroed(front + Zeros(4)).value)
  {
    var t;
    x, t := BodyStored(front + Zeros(4));
    slack := t[..|t| - 4];
    StoredBodyExtends(x, [], t);
    EmptyPlus(t);
    DropTrailer(front, StoredBody(x, []), t);
    StoredBodyExtends(x, [], slack);
    EmptyPlus(slack);
  }

  lemma ZeroedExact(front: seq<Byte>, c: Contents)
    ensures ParseZeroed(front + Zeros(4)) == Ok(c) <==> Filled(front, c)
  {
    if x, slack :| Fills(front, x, slack, c) {
      FilledParses(front, x, slack, c);
    }
    if ParseZeroed(front + Zeros(4)) == Ok(c) {
      var x, slack := ParsedFills(front);
    }
  }

  /** The reader accepts exactly the objects that hold a delta, and reads that delta. */
  lemma ParseExact(bytes: seq<Byte>, d: Delta)
    ensures Parse(bytes) == Ok(d) <==> Holds(bytes, d)
  {
    if Sealed(bytes) {
      ZeroedExact(bytes[..|bytes| - 4], Contents(d.base, d.flags, d.records));
    }
  }
}
