/**
 The compact-L2 record: a 168-byte fixed-binary layout and its split into typed
 lanes, one row at a time.
 */
module CompactL2 {
  import opened Basics
  import opened Bytes
  import opened Slices

  const MAGIC: seq<Byte> := [0x41, 0x4C, 0x49, 0x52]     // "ALIR"
  const SCHEMA_VERSION: U16 := 1
  const HEADER_LEN: U16 := 80
  const RECORD_LEN: U16 := 168

  datatype Error = WidthMismatch | UnsupportedSchema | HeaderMismatch

  datatype Kind = Order | Trade {
    function Code(): Byte { if Order? then 1 else 2 }
  }

  type Symbol = s: seq<Byte> | |s| == 9 witness seq(9, _ => 0)
  type BodyBytes = s: seq<Byte> | |s| == 7 witness seq(7, _ => 0)
  type BodyWords = s: seq<I64> | |s| == 10 witness seq(10, _ => 0)

  datatype Header = Header(
    kind: Kind,
    sourceFamily: Byte,
    exchangeId: Byte,
    tradingDay: U32,
    channelId: I32,
    bizIndex: I64,
    sourceOrdinal: U64,
    receiveNano: I64,
    exchangeTime: I64)

  /** The typed lanes of one row. */
  datatype Record = Record(header: Header, symbol: Symbol, bodyBytes: BodyBytes, words: BodyWords)

  // ---------------------------------------------------------------- header decoder

  predicate AllZero(b: seq<Byte>) { forall i :: 0 <= i < |b| ==> b[i] == 0 }

  /** Padding each record kind must leave zero. */
  predicate PaddingOk(r: seq<Byte>)
    requires |r| == 168
  {
    if r[10] == 1 then
      r[82] == 0 && GetI64(r[104..112]) == 0 && GetI64(r[112..120]) == 0 && GetI64(r[152..160]) == 0
    else r[83] == 0 && r[86] == 0
  }

  function HeaderOf(r: seq<Byte>): Header
    requires |r| == 168
  {
    Header(if r[10] == 1 then Order else Trade, r[11], r[12],
           Get32(r[16..20]), GetI32(r[20..24]), GetI64(r[24..32]), Get64(r[32..40]),
           GetI64(r[40..48]), GetI64(r[48..56]))
  }

  /** Decode and validate one record header, failing on the first bad field. */
  function DecodeHeader(r: seq<Byte>): Result<Header, Error> {
    if |r| != 168 then Err(WidthMismatch)
    else if r[0..4] != MAGIC then Err(HeaderMismatch)
    else if Get16(r[4..6]) != SCHEMA_VERSION then Err(UnsupportedSchema)
    else if Get16(r[6..8]) != HEADER_LEN then Err(HeaderMismatch)
    else if Get16(r[8..10]) != RECORD_LEN then Err(HeaderMismatch)
    else if r[10] != 1 && r[10] != 2 then Err(HeaderMismatch)
    else if !(1 <= r[11] <= 3) then Err(HeaderMismatch)
    else if r[12] > 2 then Err(HeaderMismatch)
    else if r[13] != 0 || Get16(r[14..16]) != 0 then Err(HeaderMismatch)
    else if !AllZero(r[65..80]) then Err(HeaderMismatch)
    else
      var h := HeaderOf(r);
      if h.tradingDay == 0 then Err(HeaderMismatch)
      else if h.channelId <= 0 then Err(HeaderMismatch)
      else if h.bizIndex <= 0 then Err(HeaderMismatch)
      else if r[87] != 0 then Err(HeaderMismatch)
      else if !PaddingOk(r) then Err(HeaderMismatch)
      else Ok(h)
  }

  function WordsOf(r: seq<Byte>): BodyWords
    requires |r| == 168
  {
    seq(10, i requires 0 <= i < 10 => GetI64(r[88 + 8 * i..96 + 8 * i]))
  }

  function LanesOf(r: seq<Byte>): Record
    requires |r| == 168
  {
    Record(HeaderOf(r), r[56..65], r[80..87], WordsOf(r))
  }

  /** Split a validated record into lanes. */
  function FromV1(r: seq<Byte>): Result<Record, Error> {
    var _ :- DecodeHeader(r);
    Ok(LanesOf(r))
  }

  // ---------------------------------------------------------------- encoder

  /** Bytes 0..16: the envelope. */
  function Envelope(h: Header): (b: seq<Byte>)
    ensures |b| == 16
  {
    MAGIC + Put16(SCHEMA_VERSION) + Put16(HEADER_LEN) + Put16(RECORD_LEN)
    + [h.kind.Code(), h.sourceFamily, h.exchangeId, 0] + Put16(0)
  }

  /** Bytes 16..56: the scalars. */
  function Scalars(h: Header): (b: seq<Byte>)
    ensures |b| == 40
  {
    Put32(h.tradingDay) + PutI32(h.channelId) + PutI64(h.bizIndex) + Put64(h.sourceOrdinal)
    + PutI64(h.receiveNano) + PutI64(h.exchangeTime)
  }

  /** Bytes 56..88: symbol, reserved tail, compact body bytes, reserved byte. */
  function Text(r: Record): (b: seq<Byte>)
    ensures |b| == 32
  {
    r.symbol + Zeros(15) + r.bodyBytes + [0]
  }

  function WordParts(ws: seq<I64>): (parts: seq<seq<Byte>>)
    ensures |parts| == |ws| && AllWidth(parts, 8)
  {
    seq(|ws|, i requires 0 <= i < |ws| => PutI64(ws[i]))
  }

  /** The body words, eight bytes each. */
  function Words(ws: seq<I64>): (b: seq<Byte>)
    ensures |b| == 8 * |ws|
  {
    FlattenWidth(WordParts(ws), 8);
    Flatten(WordParts(ws))
  }

  function Encode(r: Record): (b: seq<Byte>)
    ensures |b| == 168
  {
    Envelope(r.header) + Scalars(r.header) + Text(r) + Words(r.words)
  }

  /** Rebuild the record, refusing lanes the header decoder would refuse. */
  function ToV1(r: Record): Result<seq<Byte>, Error> {
    var b := Encode(r);
    var _ :- DecodeHeader(b);
    Ok(b)
  }

  // ---------------------------------------------------------------- layout

  /** Where each lane of `r` sits in the bytes `b`, by offset. */
  ghost predicate Layout(b: seq<Byte>, r: Record) {
    && |b| == 168
    && EnvelopeLayout(b[0..16], r.header)
    && ScalarLayout(b[16..56], r.header)
    && TextLayout(b[56..88], r)
    && forall i :: 0 <= i < 10 ==> Chunk(b[88..168], 8, i) == PutI64(r.words[i])
  }

  ghost predicate EnvelopeLayout(b: seq<Byte>, h: Header)
    requires |b| == 16
  {
    && b[0..4] == MAGIC && b[4..6] == Put16(SCHEMA_VERSION) && b[6..8] == Put16(HEADER_LEN)
    && b[8..10] == Put16(RECORD_LEN) && b[10..14] == [h.kind.Code(), h.sourceFamily, h.exchangeId, 0]
    && b[14..16] == Put16(0)
  }

  ghost predicate ScalarLayout(b: seq<Byte>, h: Header)
    requires |b| == 40
  {
    && b[0..4] == Put32(h.tradingDay) && b[4..8] == PutI32(h.channelId) && b[8..16] == PutI64(h.bizIndex)
    && b[16..24] == Put64(h.sourceOrdinal) && b[24..32] == PutI64(h.receiveNano)
    && b[32..40] == PutI64(h.exchangeTime)
  }

  ghost predicate TextLayout(b: seq<Byte>, r: Record)
    requires |b| == 32
  {
    b[0..9] == r.symbol && b[9..24] == Zeros(15) && b[24..31] == r.bodyBytes && b[31..32] == [0]
  }

  lemma EnvelopeLaid(h: Header)
    ensures EnvelopeLayout(Envelope(h), h)
  {
    Parts6(MAGIC, Put16(SCHEMA_VERSION), Put16(HEADER_LEN), Put16(RECORD_LEN),
           [h.kind.Code(), h.sourceFamily, h.exchangeId, 0], Put16(0));
  }

  lemma ScalarsLaid(h: Header)
    ensures ScalarLayout(Scalars(h), h)
  {
    Parts6(Put32(h.tradingDay), PutI32(h.channelId), PutI64(h.bizIndex), Put64(h.sourceOrdinal),
           PutI64(h.receiveNano), PutI64(h.exchangeTime));
  }

  lemma TextLaid(r: Record)
    ensures TextLayout(Text(r), r)
  {
    Parts4(r.symbol, Zeros(15), r.bodyBytes, [0]);
  }

  lemma WordsLaid(ws: BodyWords, i: nat)
    requires i < 10
    ensures Chunk(Words(ws), 8, i) == PutI64(ws[i])
  {
    FlattenSlice(WordParts(ws), 8, i);
  }

  /** The encoder lays its lanes out. */
  lemma EncodeLayout(r: Record)
    ensures Layout(Encode(r), r)
  {
    Parts4(Envelope(r.header), Scalars(r.header), Text(r), Words(r.words));
    EnvelopeLaid(r.header);
    ScalarsLaid(r.header);
    TextLaid(r);
    forall i | 0 <= i < 10 ensures Chunk(Words(r.words), 8, i) == PutI64(r.words[i]) {
      WordsLaid(r.words, i);
    }
    StagesLaid(Encode(r), Envelope(r.header), Scalars(r.header), Text(r), Words(r.words), r);
  }

  lemma StagesLaid(b: seq<Byte>, e: seq<Byte>, s: seq<Byte>, t: seq<Byte>, w: seq<Byte>, r: Record)
    requires |b| == 168 && |e| == 16 && |s| == 40 && |t| == 32 && |w| == 80
    requires b[0..16] == e && b[16..56] == s && b[56..88] == t && b[88..168] == w
    requires EnvelopeLayout(e, r.header) && ScalarLayout(s, r.header) && TextLayout(t, r)
    requires forall i :: 0 <= i < 10 ==> Chunk(w, 8, i) == PutI64(r.words[i])
    ensures Layout(b, r)
  {
  }

  lemma EnvelopeDetermined(b: seq<Byte>, h: Header)
    requires |b| == 16 && EnvelopeLayout(b, h)
    ensures b == Envelope(h)
  {
    Cut(b, 0, 4, 6);
    Cut(b, 0, 6, 8);
    Cut(b, 0, 8, 10);
    Cut(b, 0, 10, 14);
    Cut(b, 0, 14, 16);
    assert b[0..16] == b;
  }

  lemma ScalarsDetermined(b: seq<Byte>, h: Header)
    requires |b| == 40 && ScalarLayout(b, h)
    ensures b == Scalars(h)
  {
    Cut(b, 0, 4, 8);
    Cut(b, 0, 8, 16);
    Cut(b, 0, 16, 24);
    Cut(b, 0, 24, 32);
    Cut(b, 0, 32, 40);
    assert b[0..40] == b;
  }

  lemma TextDetermined(b: seq<Byte>, r: Record)
    requires |b| == 32 && TextLayout(b, r)
    ensures b == Text(r)
  {
    Cut(b, 0, 9, 24);
    Cut(b, 0, 24, 31);
    Cut(b, 0, 31, 32);
    assert b[0..32] == b;
  }

  /** The layout determines the bytes. */
  lemma LayoutDetermines(b: seq<Byte>, r: Record)
    requires Layout(b, r)
    ensures b == Encode(r)
  {
    EnvelopeDetermined(b[0..16], r.header);
    ScalarsDetermined(b[16..56], r.header);
    TextDetermined(b[56..88], r);
    FlattenOfSlices(b[88..168], WordParts(r.words), 8);
    Cut(b, 0, 16, 56);
    Cut(b, 0, 56, 88);
    Cut(b, 0, 88, 168);
    assert b[0..168] == b;
  }

  // ---------------------------------------------------------------- lanes -> bytes -> lanes

  lemma ScalarsRead(b: seq<Byte>, h: Header)
    requires |b| == 168 && ScalarLayout(b[16..56], h)
    ensures Get32(b[16..20]) == h.tradingDay && GetI32(b[20..24]) == h.channelId && GetI64(b[24..32]) == h.bizIndex
    ensures Get64(b[32..40]) == h.sourceOrdinal && GetI64(b[40..48]) == h.receiveNano
    ensures GetI64(b[48..56]) == h.exchangeTime
  {
    var p := b[16..56];
    SubSlice(b, p, 16, 0, 4);
    SubSlice(b, p, 16, 4, 8);
    SubSlice(b, p, 16, 8, 16);
    SubSlice(b, p, 16, 16, 24);
    SubSlice(b, p, 16, 24, 32);
    SubSlice(b, p, 16, 32, 40);
    GetPut32(h.tradingDay);
    GetPutI32(h.channelId);
    GetPutI64(h.bizIndex);
    GetPut64(h.sourceOrdinal);
    GetPutI64(h.receiveNano);
    GetPutI64(h.exchangeTime);
  }

  lemma HeaderRead(b: seq<Byte>, h: Header)
    requires |b| == 168 && EnvelopeLayout(b[0..16], h) && ScalarLayout(b[16..56], h)
    ensures HeaderOf(b) == h
  {
    ScalarsRead(b, h);
    TagsRead(b, h);
  }

  lemma TagsRead(b: seq<Byte>, h: Header)
    requires |b| == 168 && b[0..16][10..14] == [h.kind.Code(), h.sourceFamily, h.exchangeId, 0]
    ensures b[10] == h.kind.Code() && b[11] == h.sourceFamily && b[12] == h.exchangeId
  {
    var p := b[0..16][10..14];
    assert b[10] == p[0] && b[11] == p[1] && b[12] == p[2];
  }

  lemma TextRead(b: seq<Byte>, r: Record)
    requires |b| == 168 && TextLayout(b[56..88], r)
    ensures b[56..65] == r.symbol && b[80..87] == r.bodyBytes
  {
    SubSlice(b, b[56..88], 56, 0, 9);
    SubSlice(b, b[56..88], 56, 24, 31);
  }

  lemma WordsRead(b: seq<Byte>, ws: BodyWords)
    requires |b| == 168
    requires forall i :: 0 <= i < 10 ==> Chunk(b[88..168], 8, i) == PutI64(ws[i])
    ensures WordsOf(b) == ws
  {
    forall i | 0 <= i < 10 ensures WordsOf(b)[i] == ws[i] {
      SubSlice(b, b[88..168], 88, 8 * i, 8 * i + 8);
      assert Chunk(b[88..168], 8, i) == PutI64(ws[i]);
      GetPutI64(ws[i]);
    }
  }

  /** Bytes with a layout split into exactly the lanes laid out. */
  lemma LayoutSplits(b: seq<Byte>, r: Record)
    requires Layout(b, r)
    ensures LanesOf(b) == r
  {
    HeaderRead(b, r.header);
    TextRead(b, r);
    WordsRead(b, r.words);
  }

  /** Every lane record that can be rebuilt is recovered by splitting the rebuilt bytes. */
  lemma SplitOfRebuilt(r: Record)
    requires ToV1(r).Ok?
    ensures FromV1(ToV1(r).value) == Ok(r)
  {
    EncodeLayout(r);
    LayoutSplits(Encode(r), r);
  }

  // ---------------------------------------------------------------- bytes -> lanes -> bytes

  lemma EnvelopeSplit(b: seq<Byte>)
    requires DecodeHeader(b).Ok?
    ensures EnvelopeLayout(b[0..16], HeaderOf(b))
  {
    PutGet16(b[4..6]);
    PutGet16(b[6..8]);
    PutGet16(b[8..10]);
    PutGet16(b[14..16]);
    var p := b[0..16];
    assert p[0..4] == b[0..4] && p[4..6] == b[4..6] && p[6..8] == b[6..8] && p[8..10] == b[8..10] && p[14..16] == b[14..16];
    assert p[10..14] == [b[10], b[11], b[12], b[13]];
  }

  lemma ScalarsSplit(b: seq<Byte>)
    requires |b| == 168
    ensures ScalarLayout(b[16..56], HeaderOf(b))
  {
    PutGet32(b[16..20]);
    PutGet32(b[20..24]);
    PutGet64(b[24..32]);
    PutGet64(b[32..40]);
    PutGet64(b[40..48]);
    PutGet64(b[48..56]);
    var p := b[16..56];
    SubSlice(b, p, 16, 0, 4);
    SubSlice(b, p, 16, 4, 8);
    SubSlice(b, p, 16, 8, 16);
    SubSlice(b, p, 16, 16, 24);
    SubSlice(b, p, 16, 24, 32);
    SubSlice(b, p, 16, 32, 40);
  }

  lemma TextSplit(b: seq<Byte>)
    requires |b| == 168 && AllZero(b[65..80]) && b[87] == 0
    ensures TextLayout(b[56..88], LanesOf(b))
  {
    var p := b[56..88];
    SubSlice(b, p, 56, 0, 9);
    SubSlice(b, p, 56, 9, 24);
    SubSlice(b, p, 56, 24, 31);
    assert b[65..80] == Zeros(15);
    assert p[31..32] == [b[87]];
  }

  lemma WordsSplit(b: seq<Byte>, i: nat)
    requires |b| == 168 && i < 10
    ensures Chunk(b[88..168], 8, i) == PutI64(WordsOf(b)[i])
  {
    SubSlice(b, b[88..168], 88, 8 * i, 8 * i + 8);
    PutGet64(b[88 + 8 * i..96 + 8 * i]);
  }

  /** Accepted bytes are laid out from the lanes they split into. */
  lemma SplitLayout(b: seq<Byte>)
    requires DecodeHeader(b).Ok?
    ensures Layout(b, LanesOf(b))
  {
    EnvelopeSplit(b);
    ScalarsSplit(b);
    TextSplit(b);
    forall i | 0 <= i < 10 ensures Chunk(b[88..168], 8, i) == PutI64(LanesOf(b).words[i]) {
      WordsSplit(b, i);
    }
  }

  /** Every record the decoder accepts is rebuilt byte for byte from its lanes. */
  lemma RebuildOfSplit(b: seq<Byte>)
    requires FromV1(b).Ok?
    ensures ToV1(FromV1(b).value) == Ok(b)
  {
    SplitLayout(b);
    LayoutDetermines(b, LanesOf(b));
  }

  // ---------------------------------------------------------------- which records are accepted

  /** What the decoder demands, said of the lanes. */
  predicate Admissible(r: Record) {
    && 1 <= r.header.sourceFamily <= 3 && r.header.exchangeId <= 2
    && r.header.tradingDay != 0 && r.header.channelId > 0 && r.header.bizIndex > 0
    && match r.header.kind {
         case Order => r.bodyBytes[2] == 0 && r.words[2] == 0 && r.words[3] == 0 && r.words[8] == 0
         case Trade => r.bodyBytes[3] == 0 && r.bodyBytes[6] == 0
       }
  }

  /** The body fields that padding is checked in, by offset. */
  lemma BodyAt(b: seq<Byte>)
    requires |b| == 168
    ensures var r := LanesOf(b);
            && r.bodyBytes[2] == b[82] && r.bodyBytes[3] == b[83] && r.bodyBytes[6] == b[86]
            && r.words[2] == GetI64(b[104..112]) && r.words[3] == GetI64(b[112..120]) && r.words[8] == GetI64(b[152..160])
  {
  }

  lemma AcceptedIsAdmissible(b: seq<Byte>)
    requires DecodeHeader(b).Ok?
    ensures Layout(b, LanesOf(b)) && Admissible(LanesOf(b))
  {
    SplitLayout(b);
    BodyAt(b);
  }

  /** The envelope and reserved bytes of a laid-out record. */
  lemma LaidOutEnvelope(b: seq<Byte>, r: Record)
    requires Layout(b, r)
    ensures b[0..4] == MAGIC && Get16(b[4..6]) == SCHEMA_VERSION && Get16(b[6..8]) == HEADER_LEN
    ensures Get16(b[8..10]) == RECORD_LEN && b[10] == r.header.kind.Code() && b[13] == 0 && Get16(b[14..16]) == 0
  {
    var p := b[0..16];
    assert b[0..4] == p[0..4] && b[4..6] == p[4..6] && b[6..8] == p[6..8] && b[8..10] == p[8..10] && b[14..16] == p[14..16];
    assert b[10] == p[10..14][0] && b[13] == p[10..14][3];
    GetPut16(SCHEMA_VERSION);
    GetPut16(HEADER_LEN);
    GetPut16(RECORD_LEN);
    GetPut16(0);
  }

  lemma LaidOutGaps(b: seq<Byte>, r: Record)
    requires Layout(b, r)
    ensures AllZero(b[65..80]) && b[87] == 0
  {
    var p := b[56..88];
    SubSlice(b, p, 56, 9, 24);
    assert b[87] == p[31..32][0];
  }

  lemma AdmissibleIsAccepted(b: seq<Byte>, r: Record)
    requires Layout(b, r) && Admissible(r)
    ensures DecodeHeader(b) == Ok(r.header)
  {
    LayoutSplits(b, r);
    LaidOutEnvelope(b, r);
    LaidOutGaps(b, r);
    BodyAt(b);
  }

  /** The decoder accepts exactly the bytes that lay out an admissible record, and returns its header. */
  lemma DecodeExact(b: seq<Byte>, h: Header)
    ensures DecodeHeader(b) == Ok(h) <==> exists r :: Layout(b, r) && Admissible(r) && r.header == h
  {
    if DecodeHeader(b) == Ok(h) {
      AcceptedIsAdmissible(b);
    }
    if r :| Layout(b, r) && Admissible(r) && r.header == h {
      AdmissibleIsAccepted(b, r);
    }
  }

  /** Exactly the admissible lane records can be rebuilt. */
  lemma RebuildsIff(r: Record)
    ensures ToV1(r).Ok? <==> Admissible(r)
  {
    EncodeLayout(r);
    LayoutSplits(Encode(r), r);
    if ToV1(r).Ok? {
      AcceptedIsAdmissible(Encode(r));
    }
    if Admissible(r) {
      AdmissibleIsAccepted(Encode(r), r);
    }
  }

  /**
   Which error a refusal carries: the width comes first, then an unknown schema version
   behind the right magic; every other refusal is a header mismatch.
   */
  lemma RefusalNamed(b: seq<Byte>)
    ensures DecodeHeader(b) == Err(WidthMismatch) <==> |b| != 168
    ensures DecodeHeader(b) == Err(UnsupportedSchema) <==>
            |b| == 168 && b[0..4] == [0x41, 0x4C, 0x49, 0x52] && !(b[4] == 1 && b[5] == 0)
  {
    if |b| == 168 {
      LittleEndian(b[4..6]);
    }
  }
}
