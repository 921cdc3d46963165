/** Dictionary values: byte strings stored as cumulative offsets followed by their data. */
module OcbDictionary {
  import opened Basics
  import opened Bytes
  import opened Slices
  import opened Crc32c
  import opened OcbReader

  const MAGIC: seq<Byte> := [0x4F, 0x43, 0x42, 0x44, 0x56, 0x4C, 0x31, 0x00]   // "OCBDVL1\0"
  const HEADER_LEN: U16 := 40

  /** `size_of::<Vec<u8>>()` on a 64-bit target. */
  const VEC_SIZE: nat := 24

  datatype Kind = Utf8 | Bytes | FixedBytes | EnumLabels {
    function Code(): U16 {
      match this case Utf8 => 1 case Bytes => 2 case FixedBytes => 3 case EnumLabels => 4
    }
  }

  function KindOf(code: U16): Result<Kind, FormatError> {
    match code
    case 1 => Ok(Utf8)
    case 2 => Ok(Bytes)
    case 3 => Ok(FixedBytes)
    case 4 => Ok(EnumLabels)
    case _ => Err(CorruptFile)
  }

  datatype Header = Header(kind: Kind, count: U32, width: U32, dataBytes: U64)

  datatype Dictionary = Dictionary(kind: Kind, width: U32, values: seq<seq<Byte>>, crc: U32)

  // ---------------------------------------------------------------- header

  /** The fields a reader ignores. */
  datatype Ignored = Ignored(reserved0: U16, flags: U32, reserved1: U32)

  function TakeHeader(b: seq<Byte>): Taken<Header> {
    var code :- Take16(b);
    var kind :- KindOf(code.0);
    var reserved0 :- Take16(code.1);
    var count :- Take32(reserved0.1);
    var width :- Take32(count.1);
    var data :- Take64(width.1);
    var flags :- Take32(data.1);
    var reserved1 :- Take32(flags.1);
    Ok((Header(kind, count.0, width.0, data.0), reserved1.1))
  }

  function PutHeader(h: Header, i: Ignored, t: seq<Byte>): seq<Byte> {
    Put16(h.kind.Code()) + (Put16(i.reserved0) + (Put32(h.count) + (Put32(h.width)
    + (Put64(h.dataBytes) + (Put32(i.flags) + (Put32(i.reserved1) + t))))))
  }

  lemma HeaderRead(h: Header, i: Ignored, t: seq<Byte>)
    ensures TakeHeader(PutHeader(h, i, t)) == Ok((h, t))
  {
    var e := Put32(i.reserved1) + t;
    var d := Put32(i.flags) + e;
    var c := Put64(h.dataBytes) + d;
    var b := Put32(h.width) + c;
    var a := Put32(h.count) + b;
    TakePut16(h.kind.Code(), Put16(i.reserved0) + a);
    TakePut16(i.reserved0, a);
    TakePut32(h.count, b);
    TakePut32(h.width, c);
    TakePut64(h.dataBytes, d);
    TakePut32(i.flags, e);
    TakePut32(i.reserved1, t);
  }

  lemma HeaderWritten(b: seq<Byte>) returns (i: Ignored)
    requires TakeHeader(b).Ok?
    ensures b == PutHeader(TakeHeader(b).value.0, i, TakeHeader(b).value.1)
  {
    var code := Take16(b).value;
    var reserved0 := Take16(code.1).value;
    var count := Take32(reserved0.1).value;
    var width := Take32(count.1).value;
    var data := Take64(width.1).value;
    var flags := Take32(data.1).value;
    var reserved1 := Take32(flags.1).value;
    PutTake(b);
    PutTake(code.1);
    PutTake(reserved0.1);
    PutTake(count.1);
    PutTake(width.1);
    PutTake(data.1);
    PutTake(flags.1);
    i := Ignored(reserved0.0, flags.0, reserved1.0);
  }

  // ---------------------------------------------------------------- offsets

  /** The lengths between offsets, checked against the header. */
  function TakeLengths(h: Header, previous: U64, b: seq<Byte>, count: nat): Taken<seq<nat>>
    decreases count
  {
    if count == 0 then (if previous == h.dataBytes then Ok(([], b)) else Err(CorruptFile))
    else
      var next :- Take64(b);
      if previous > next.0 || next.0 > h.dataBytes then Err(CorruptFile)
      else if h.kind == FixedBytes && next.0 - previous != h.width then Err(CorruptFile)
      else
        var others :- TakeLengths(h, next.0, next.1, count - 1);
        Ok(([next.0 - previous] + others.0, others.1))
  }

  function Total(lens: seq<nat>): nat {
    if lens == [] then 0 else lens[0] + Total(lens[1..])
  }

  /** Cumulative end offsets after `previous`. */
  function PutEnds(previous: nat, lens: seq<nat>): seq<Byte>
    requires previous + Total(lens) < U64_LIMIT
    decreases |lens|
  {
    if lens == [] then [] else Put64(previous + lens[0]) + PutEnds(previous + lens[0], lens[1..])
  }

  predicate WidthsOk(h: Header, lens: seq<nat>) {
    h.kind == FixedBytes ==> forall i :: 0 <= i < |lens| ==> lens[i] == h.width
  }

  lemma EndsJoin(previous: nat, lens: seq<nat>, t: seq<Byte>)
    requires lens != [] && previous + Total(lens) < U64_LIMIT
    ensures PutEnds(previous, lens) + t == Put64(previous + lens[0]) + (PutEnds(previous + lens[0], lens[1..]) + t)
  {
  }

  /** Offsets that were put are accepted exactly when every fixed width holds. */
  lemma {:induction false} EndsRead(h: Header, previous: nat, lens: seq<nat>, t: seq<Byte>)
    requires previous + Total(lens) == h.dataBytes
    ensures TakeLengths(h, previous, PutEnds(previous, lens) + t, |lens|) ==
            if WidthsOk(h, lens) then Ok((lens, t)) else Err(CorruptFile)
    decreases |lens|
  {
    if lens == [] {
      assert PutEnds(previous, lens) + t == t;
    } else {
      var next := previous + lens[0];
      EndsJoin(previous, lens, t);
      TakePut64(next, PutEnds(next, lens[1..]) + t);
      EndsRead(h, next, lens[1..], t);
      assert lens == [lens[0]] + lens[1..];
    }
  }

  lemma {:induction false} EndsWritten(h: Header, previous: nat, b: seq<Byte>, count: nat)
    requires previous <= h.dataBytes && TakeLengths(h, previous, b, count).Ok?
    ensures var (lens, t) := TakeLengths(h, previous, b, count).value;
            && |lens| == count && WidthsOk(h, lens) && previous + Total(lens) == h.dataBytes
            && b == PutEnds(previous, lens) + t
    decreases count
  {
    var (lens, t) := TakeLengths(h, previous, b, count).value;
    if count == 0 {
      assert PutEnds(previous, lens) + t == t;
    } else {
      PutTake(b);
      var next := Take64(b).value;
      EndsWritten(h, next.0, next.1, count - 1);
      assert lens[1..] == TakeLengths(h, next.0, next.1, count - 1).value.0;
      EndsJoin(previous, lens, t);
    }
  }

  // ---------------------------------------------------------------- values

  function Lengths(vs: seq<seq<Byte>>): (lens: seq<nat>)
    ensures |lens| == |vs|
  {
    seq(|vs|, i requires 0 <= i < |vs| => |vs[i]|)
  }

  lemma {:induction false} TotalIsLength(vs: seq<seq<Byte>>)
    ensures Total(Lengths(vs)) == |Flatten(vs)|
  {
    if vs != [] {
      TotalIsLength(vs[1..]);
      FlattenFront(vs);
      assert Lengths(vs)[1..] == Lengths(vs[1..]);
    }
  }

  lemma FlattenFront(vs: seq<seq<Byte>>)
    requires vs != []
    ensures Flatten(vs) == vs[0] + Flatten(vs[1..])
  {
    FlattenAppend([vs[0]], vs[1..]);
    assert [vs[0]] + vs[1..] == vs;
    assert Flatten([vs[0]]) == vs[0];
  }

  /** The data cut at the given lengths. */
  function CutUp(data: seq<Byte>, lens: seq<nat>): (vs: seq<seq<Byte>>)
    requires Total(lens) == |data|
    ensures |vs| == |lens|
    decreases |lens|
  {
    if lens == [] then [] else [data[..lens[0]]] + CutUp(data[lens[0]..], lens[1..])
  }

  lemma {:induction false} CutFlattened(vs: seq<seq<Byte>>)
    ensures Total(Lengths(vs)) == |Flatten(vs)| && CutUp(Flatten(vs), Lengths(vs)) == vs
  {
    TotalIsLength(vs);
    if vs != [] {
      CutFlattened(vs[1..]);
      FlattenFront(vs);
      assert Lengths(vs)[1..] == Lengths(vs[1..]);
      assert Flatten(vs)[|vs[0]|..] == Flatten(vs[1..]);
    }
  }

  lemma ConsFlattened(head: seq<Byte>, others: seq<seq<Byte>>)
    ensures Flatten([head] + others) == head + Flatten(others)
    ensures Lengths([head] + others) == [|head|] + Lengths(others)
  {
    var vs := [head] + others;
    FlattenFront(vs);
    assert vs[1..] == others;
  }

  lemma {:induction false} FlattenCut(data: seq<Byte>, lens: seq<nat>)
    requires Total(lens) == |data|
    ensures Flatten(CutUp(data, lens)) == data && Lengths(CutUp(data, lens)) == lens
    decreases |lens|
  {
    if lens != [] {
      var head, others := data[..lens[0]], CutUp(data[lens[0]..], lens[1..]);
      FlattenCut(data[lens[0]..], lens[1..]);
      ConsFlattened(head, others);
      Halves(data, lens[0]);
      Halves(lens, 1);
    }
  }

  // ---------------------------------------------------------------- the object

  datatype Contents = Contents(kind: Kind, width: U32, values: seq<seq<Byte>>)

  /** The checked lengths, and the data with whatever follows it. */
  function TakeTable(h: Header, b: seq<Byte>): Taken<seq<nat>> {
    if h.count + 1 >= 0x1_0000_0000 || !Fits(b, h.count + 1, 8) then Err(CorruptFile)
    else if Get64(b[..8]) != 0 then Err(CorruptFile)
    else
      var lens :- TakeLengths(h, 0, b[8..], h.count);
      if Fits(lens.1, h.dataBytes, 1) then Ok(lens) else Err(CorruptFile)
  }

  /** The values of an accepted table. */
  function TableValues(h: Header, b: seq<Byte>): Result<seq<seq<Byte>>, FormatError> {
    var table :- TakeTable(h, b);
    EndsWritten(h, 0, b[8..], h.count);
    Ok(CutUp(table.1[..h.dataBytes], table.0))
  }

  function ParseZeroed(z: seq<Byte>): Result<Contents, FormatError> {
    var header :- TakeEnvelope(MAGIC, HEADER_LEN, z);
    var fields :- TakeHeader(header);
    var values :- TableValues(fields.0, fields.1);
    Ok(Contents(fields.0.kind, fields.0.width, values))
  }

  function Parse(bytes: seq<Byte>): Result<Dictionary, FormatError> {
    var z :- Unseal(bytes);
    var c :- ParseZeroed(z);
    Ok(Dictionary(c.kind, c.width, c.values, Trailer(bytes)))
  }

  /** The header a writer derives from its contents. */
  function HeaderFor(c: Contents): Header
    requires |c.values| < 0x1_0000_0000 && |Flatten(c.values)| < U64_LIMIT
  {
    Header(c.kind, |c.values|, c.width, |Flatten(c.values)|)
  }

  function Body(c: Contents, i: Ignored, t: seq<Byte>): seq<Byte>
    requires |c.values| < 0x1_0000_0000 && |Flatten(c.values)| < U64_LIMIT
  {
    TotalIsLength(c.values);
    Envelope(MAGIC, HEADER_LEN)
    + PutHeader(HeaderFor(c), i, Put64(0) + (PutEnds(0, Lengths(c.values)) + (Flatten(c.values) + t)))
  }

  /** Contents a reader can hold: one offset more than values, every fixed width kept. */
  predicate Readable(c: Contents) {
    && |c.values| < 0xFFFF_FFFF && |Flatten(c.values)| < U64_LIMIT
    && WidthsOk(HeaderFor(c), Lengths(c.values))
  }

  lemma {:induction false} EndsLength(previous: nat, lens: seq<nat>)
    requires previous + Total(lens) < U64_LIMIT
    ensures |PutEnds(previous, lens)| == 8 * |lens|
    decreases |lens|
  {
    if lens != [] {
      EndsLength(previous + lens[0], lens[1..]);
    }
  }

  /** The offsets and data of a written object, accepted exactly when readable. */
  lemma TableRead(c: Contents, t: seq<Byte>)
    requires |c.values| < 0x1_0000_0000 && |Flatten(c.values)| < U64_LIMIT && |t| >= 4
    requires Total(Lengths(c.values)) == |Flatten(c.values)|
    ensures TakeTable(HeaderFor(c), Put64(0) + (PutEnds(0, Lengths(c.values)) + (Flatten(c.values) + t)))
         == if Readable(c) then Ok((Lengths(c.values), Flatten(c.values) + t)) else Err(CorruptFile)
  {
    var lens, data := Lengths(c.values), Flatten(c.values) + t;
    EndsRead(HeaderFor(c), 0, lens, data);
    EndsLength(0, lens);
    TakePut64(0, PutEnds(0, lens) + data);
  }

  lemma BodyRead(c: Contents, i: Ignored, t: seq<Byte>)
    requires |c.values| < 0x1_0000_0000 && |Flatten(c.values)| < U64_LIMIT && |t| >= 4
    ensures ParseZeroed(Body(c, i, t)) == if Readable(c) then Ok(c) else Err(CorruptFile)
  {
    CutFlattened(c.values);
    var data := Flatten(c.values) + t;
    var table := Put64(0) + (PutEnds(0, Lengths(c.values)) + data);
    var fields := PutHeader(HeaderFor(c), i, table);
    EnvelopeExact(MAGIC, HEADER_LEN, Body(c, i, t), fields);
    HeaderRead(HeaderFor(c), i, table);
    TableRead(c, t);
    assert data[..|Flatten(c.values)|] == Flatten(c.values);
  }

  lemma TableWritten(h: Header, b: seq<Byte>)
    requires TakeTable(h, b).Ok?
    ensures var (lens, t) := TakeTable(h, b).value;
            && |lens| == h.count < 0xFFFF_FFFF && WidthsOk(h, lens) && Total(lens) == h.dataBytes
            && |t| >= h.dataBytes + 4 && b == Put64(0) + (PutEnds(0, lens) + t)
  {
    PutTake(b);
    EndsWritten(h, 0, b[8..], h.count);
  }

  lemma FieldsWritten(b: seq<Byte>, h: Header, table: seq<Byte>, lens: seq<nat>, data: seq<Byte>, t: seq<Byte>)
    returns (i: Ignored)
    requires TakeHeader(b) == Ok((h, table)) && TakeTable(h, table) == Ok((lens, data + t)) && |data| == h.dataBytes
    ensures |t| >= 4 && |lens| == h.count < 0xFFFF_FFFF && WidthsOk(h, lens) && Total(lens) == h.dataBytes
    ensures b == PutHeader(h, i, Put64(0) + (PutEnds(0, lens) + (data + t)))
  {
    i := HeaderWritten(b);
    TableWritten(h, table);
  }

  lemma BodyWritten(z: seq<Byte>) returns (i: Ignored, t: seq<Byte>)
    requires ParseZeroed(z).Ok?
    ensures var c := ParseZeroed(z).value;
            Readable(c) && |t| >= 4 && z == Body(c, i, t)
  {
    var b := TakeEnvelope(MAGIC, HEADER_LEN, z).value;
    EnvelopeExact(MAGIC, HEADER_LEN, z, b);
    var fields := TakeHeader(b).value;
    var table := TakeTable(fields.0, fields.1).value;
    var data := table.1[..fields.0.dataBytes];
    t := table.1[fields.0.dataBytes..];
    assert table.1 == data + t;
    i := FieldsWritten(b, fields.0, fields.1, table.0, data, t);
    Reassembled(fields.0, i, table.0, data, t);
  }

  lemma Reassembled(h: Header, i: Ignored, lens: seq<nat>, data: seq<Byte>, t: seq<Byte>)
    requires |lens| == h.count < 0xFFFF_FFFF && WidthsOk(h, lens) && Total(lens) == h.dataBytes == |data|
    ensures var c := Contents(h.kind, h.width, CutUp(data, lens));
            && Readable(c)
            && Body(c, i, t) == Envelope(MAGIC, HEADER_LEN) + PutHeader(h, i, Put64(0) + (PutEnds(0, lens) + (data + t)))
  {
    FlattenCut(data, lens);
  }

  // ---------------------------------------------------------------- exactness and round trip

  function ContentsOf(d: Dictionary): Contents { Contents(d.kind, d.width, d.values) }

  lemma BodyExtends(c: Contents, i: Ignored, t: seq<Byte>, u: seq<Byte>)
    requires |c.values| < 0x1_0000_0000 && |Flatten(c.values)| < U64_LIMIT
    ensures Body(c, i, t) + u == Body(c, i, t + u)
  {
    TotalIsLength(c.values);
    var h := HeaderFor(c);
    var ends, data := PutEnds(0, Lengths(c.values)), Flatten(c.values);
    Regroup(data, t, u);
    Regroup(ends, data + t, u);
    Regroup(Put64(0), ends + (data + t), u);
    HeaderExtends(h, i, Put64(0) + (ends + (data + t)), u);
    Regroup(Envelope(MAGIC, HEADER_LEN), PutHeader(h, i, Put64(0) + (ends + (data + t))), u);
  }

  lemma HeaderExtends(h: Header, i: Ignored, t: seq<Byte>, u: seq<Byte>)
    ensures PutHeader(h, i, t) + u == PutHeader(h, i, t + u)
  {
    var e := Put32(i.reserved1) + t;
    var d := Put32(i.flags) + e;
    var c := Put64(h.dataBytes) + d;
    var b := Put32(h.width) + c;
    var a := Put32(h.count) + b;
    Regroup(Put32(i.reserved1), t, u);
    Regroup(Put32(i.flags), e, u);
    Regroup(Put64(h.dataBytes), d, u);
    Regroup(Put32(h.width), c, u);
    Regroup(Put32(h.count), b, u);
    Regroup(Put16(i.reserved0), a, u);
    Regroup(Put16(h.kind.Code()), Put16(i.reserved0) + a, u);
  }

  /** The bytes of an object that holds the given values, with slack before its trailer. */
  ghost predicate Holds(bytes: seq<Byte>, d: Dictionary) {
    && Sealed(bytes) && d.crc == Trailer(bytes) && Readable(ContentsOf(d))
    && exists i, slack :: bytes[..|bytes| - 4] == Body(ContentsOf(d), i, slack)
  }

  /** The reader accepts exactly the objects that hold readable values, and reads those. */
  lemma ParseExact(bytes: seq<Byte>, d: Dictionary)
    ensures Parse(bytes) == Ok(d) <==> Holds(bytes, d)
  {
    if Holds(bytes, d) {
      var c := ContentsOf(d);
      var i, slack :| bytes[..|bytes| - 4] == Body(c, i, slack);
      BodyExtends(c, i, slack, Zeros(4));
      BodyRead(c, i, slack + Zeros(4));
    }
    if Parse(bytes) == Ok(d) {
      var front := bytes[..|bytes| - 4];
      var i, t := BodyWritten(front + Zeros(4));
      SlackBeforeTrailer(front, ContentsOf(d), i, t);
    }
  }

  lemma SlackBeforeTrailer(front: seq<Byte>, c: Contents, i: Ignored, t: seq<Byte>)
    requires Readable(c) && |t| >= 4 && front + Zeros(4) == Body(c, i, t)
    ensures front == Body(c, i, t[..|t| - 4])
  {
    BodyExtends(c, i, [], t);
    assert [] + t == t;
    DropTrailer(front, Body(c, i, []), t);
    BodyExtends(c, i, [], t[..|t| - 4]);
    assert [] + t[..|t| - 4] == t[..|t| - 4];
  }

  /** The writer's width check, which truncates each length to 32 bits. */
  predicate WidthMismatch(d: Dictionary) {
    exists i :: 0 <= i < |d.values| && WidthWrong(d, d.values[i])
  }

  predicate WidthWrong(d: Dictionary, value: seq<Byte>) { d.kind == FixedBytes && |value| % 0x1_0000_0000 != d.width }

  /** `write_to` of version-1 values. */
  function Print(d: Dictionary): Result<seq<Byte>, FormatError>
    requires |Flatten(d.values)| < U64_LIMIT
  {
    if |d.values| >= 0x1_0000_0000 then Err(InvalidInput)
    else if d.kind == FixedBytes && d.width == 0 then Err(InvalidInput)
    else if d.kind != FixedBytes && d.width != 0 then Err(InvalidInput)
    else if WidthMismatch(d) then Err(InvalidInput)
    else Ok(Seal(Body(ContentsOf(d), Ignored(0, 0, 0), [])))
  }

  /** What a caller must check for a written object to be readable. */
  predicate RoundTrips(d: Dictionary) {
    && |d.values| != 0xFFFF_FFFF
    && (d.kind == FixedBytes ==> forall i :: 0 <= i < |d.values| ==> |d.values[i]| < 0x1_0000_0000)
  }

  /** Reading a written object returns its values exactly when they round-trip; else it is refused. */
  lemma ParseOfPrint(d: Dictionary)
    requires |Flatten(d.values)| < U64_LIMIT && Print(d).Ok?
    ensures Parse(Print(d).value) ==
            if RoundTrips(d)
            then Ok(d.(crc := Checksum(Body(ContentsOf(d), Ignored(0, 0, 0), []) + Zeros(4))))
            else Err(CorruptFile)
  {
    var c, i := ContentsOf(d), Ignored(0, 0, 0);
    SealOpens(Body(c, i, []));
    BodyExtends(c, i, [], Zeros(4));
    assert [] + Zeros(4) == Zeros(4);
    BodyRead(c, i, Zeros(4));
    ReadableWhenRoundTrips(d);
  }

  lemma ReadableWhenRoundTrips(d: Dictionary)
    requires |Flatten(d.values)| < U64_LIMIT && Print(d).Ok?
    ensures Readable(ContentsOf(d)) <==> RoundTrips(d)
  {
    if d.kind == FixedBytes {
      assert forall i :: 0 <= i < |d.values| ==> !WidthWrong(d, d.values[i]);
      WidthsTruncated(d.values, d.width);
    }
  }

  lemma WidthsTruncated(vs: seq<seq<Byte>>, width: U32)
    requires forall i :: 0 <= i < |vs| ==> |vs[i]| % 0x1_0000_0000 == width
    ensures (forall i :: 0 <= i < |vs| ==> Lengths(vs)[i] == width)
       <==> (forall i :: 0 <= i < |vs| ==> |vs[i]| < 0x1_0000_0000)
  {
    forall i | 0 <= i < |vs| ensures Lengths(vs)[i] == width <==> |vs[i]| < 0x1_0000_0000 {
    }
  }

  /** As many values as a 32-bit count can state are written, and refused: the offset count overflows. */
  lemma OneValueTooMany(d: Dictionary)
    requires d.kind == Bytes && d.width == 0 && |d.values| == 0xFFFF_FFFF && |Flatten(d.values)| < U64_LIMIT
    ensures Print(d).Ok? && Parse(Print(d).value) == Err(CorruptFile)
  {
    ParseOfPrint(d);
  }

  /** The truncating width check lets a value through that the reader then refuses. */
  lemma TruncatedWidth(value: seq<Byte>)
    requires |value| == 0x1_0000_0001
    ensures var d := Dictionary(FixedBytes, 1, [value], 0);
            && |Flatten(d.values)| < U64_LIMIT && Print(d).Ok?
            && Parse(Print(d).value) == Err(CorruptFile)
  {
    var d := Dictionary(FixedBytes, 1, [value], 0);
    FlattenFront(d.values);
    assert |d.values[0]| % 0x1_0000_0000 == 1;
    ParseOfPrint(d);
    assert |d.values[0]| >= 0x1_0000_0000;
  }

  // ---------------------------------------------------------------- as it runs

  /** Bytes a materialized dictionary keeps. */
  function Retained(vs: seq<seq<Byte>>): nat { VEC_SIZE * |vs| + |Flatten(vs)| }

  ghost function RetainedIf(vs: Result<seq<seq<Byte>>, FormatError>): nat {
    match vs case Ok(values) => Retained(values) case Err(_) => 0
  }

  method ReadHeader(cur: Cursor) returns (res: Result<Header, FormatError>)
    requires cur.Valid()
    modifies cur
    ensures cur.Valid() && Moved(TakeHeader(old(cur.Rest())), res, cur.Rest())
  {
    var code := cur.ReadU16();
    if code.Err? {
      return Err(code.error);
    }
    var kind := KindOf(code.value);
    if kind.Err? {
      return Err(kind.error);
    }
    var reserved0 := cur.ReadU16();
    if reserved0.Err? {
      return Err(reserved0.error);
    }
    var count := cur.ReadU32();
    if count.Err? {
      return Err(count.error);
    }
    var width := cur.ReadU32();
    if width.Err? {
      return Err(width.error);
    }
    var data := cur.ReadU64();
    if data.Err? {
      return Err(data.error);
    }
    var flags := cur.ReadU32();
    if flags.Err? {
      return Err(flags.error);
    }
    var reserved1 := cur.ReadU32();
    if reserved1.Err? {
      return Err(reserved1.error);
    }
    return Ok(Header(kind.value, count.value, width.value, data.value));
  }

  /** With `done` lengths taken and `previous` the last offset, `left` offsets finish the table. */
  ghost predicate Underway(h: Header, whole: Taken<seq<nat>>, done: seq<nat>, previous: U64, b: seq<Byte>, left: nat) {
    whole == match TakeLengths(h, previous, b, left)
             case Ok(others) => Ok((done + others.0, others.1))
             case Err(e) => Err(e)
  }

  lemma Advance(h: Header, whole: Taken<seq<nat>>, done: seq<nat>, previous: U64, b: seq<Byte>, left: nat)
    requires left > 0 && Underway(h, whole, done, previous, b, left)
    ensures match Take64(b)
            case Err(e) => whole == Err(e)
            case Ok(next) =>
              if previous <= next.0 <= h.dataBytes && (h.kind == FixedBytes ==> next.0 - previous == h.width)
              then Underway(h, whole, done + [next.0 - previous], next.0, next.1, left - 1)
              else whole == Err(CorruptFile)
  {
    if Take64(b).Ok? {
      var next := Take64(b).value;
      if previous <= next.0 <= h.dataBytes && (h.kind == FixedBytes ==> next.0 - previous == h.width) {
        var others := TakeLengths(h, next.0, next.1, left - 1);
        if others.Ok? {
          assert done + ([next.0 - previous] + others.value.0) == (done + [next.0 - previous]) + others.value.0;
        }
      }
    }
  }

  /** The first pass: offsets ascend, keep fixed widths and end at the data's length. */
  method CheckOffsets(cur: Cursor, h: Header) returns (res: Result<(), FormatError>)
    requires cur.Valid()
    modifies cur
    ensures cur.Valid()
    ensures match TakeLengths(h, 0, old(cur.Rest()), h.count)
            case Ok(taken) => res == Ok(()) && cur.Rest() == taken.1
            case Err(e) => res == Err(e)
  {
    ghost var whole := TakeLengths(h, 0, cur.Rest(), h.count);
    ghost var done: seq<nat> := [];
    var previous: U64 := 0;
    assert whole.Ok? ==> [] + whole.value.0 == whole.value.0;
    for i := 0 to h.count
      invariant cur.Valid() && Underway(h, whole, done, previous, cur.Rest(), h.count - i)
    {
      Advance(h, whole, done, previous, cur.Rest(), h.count - i);
      var next := cur.ReadU64();
      if next.Err? {
        return Err(next.error);
      }
      if previous > next.value || next.value > h.dataBytes {
        return Err(CorruptFile);
      }
      if h.kind == FixedBytes && next.value - previous != h.width {
        return Err(CorruptFile);
      }
      done := done + [next.value - previous];
      previous := next.value;
    }
    if previous != h.dataBytes {
      return Err(CorruptFile);
    }
    assert done + [] == done;
    return Ok(());
  }

  /** The second pass, over offsets the first has accepted: copy each value out of the data. */
  method ReadValues(cur: Cursor, h: Header, data: seq<Byte>) returns (vs: seq<seq<Byte>>)
    requires cur.Valid() && TakeLengths(h, 0, cur.Rest(), h.count).Ok? && |data| == h.dataBytes
    requires Total(TakeLengths(h, 0, cur.Rest(), h.count).value.0) == |data|
    modifies cur
    ensures cur.Valid() && vs == CutUp(data, TakeLengths(h, 0, old(cur.Rest()), h.count).value.0)
  {
    EndsWritten(h, 0, cur.Rest(), h.count);
    ghost var left := TakeLengths(h, 0, cur.Rest(), h.count).value.0;
    ghost var all := CutUp(data, left);
    var previous: U64 := 0;
    vs := [];
    for i := 0 to h.count
      invariant cur.Valid() && previous <= |data| && |left| == h.count - i
      invariant TakeLengths(h, previous, cur.Rest(), h.count - i).Ok?
      invariant TakeLengths(h, previous, cur.Rest(), h.count - i).value.0 == left
      invariant Total(left) == |data| - previous && all == vs + CutUp(data[previous..], left)
    {
      var next := cur.ReadU64();
      CutHead(all, vs, data[previous..], left);
      SliceTwice(data, previous, next.value);
      left := left[1..];
      vs := vs + [data[previous..next.value]];
      previous := next.value;
    }
  }

  lemma SliceTwice(data: seq<Byte>, i: nat, j: nat)
    requires i <= j <= |data|
    ensures data[i..][..j - i] == data[i..j] && data[i..][j - i..] == data[j..]
  {
  }

  lemma CutHead(whole: seq<seq<Byte>>, vs: seq<seq<Byte>>, tail: seq<Byte>, ls: seq<nat>)
    requires ls != [] && Total(ls) == |tail| && whole == vs + CutUp(tail, ls)
    ensures whole == (vs + [tail[..ls[0]]]) + CutUp(tail[ls[0]..], ls[1..])
  {
    Regroup(vs, [tail[..ls[0]]], CutUp(tail[ls[0]..], ls[1..]));
  }

  method ReadZeroed(z: seq<Byte>, budget: Budget) returns (res: Result<Contents, FormatError>)
    requires budget.Valid() && |z| < MAX_OBJECT
    modifies budget
    ensures budget.Valid()
    ensures Budgeted(ParseZeroed(z), if ParseZeroed(z).Ok? then Retained(ParseZeroed(z).value.values) else 0,
                     old(budget.Remaining()), res, budget.charged - old(budget.charged))
  {
    var cur := new Cursor(z);
    var header := ReadEnvelope(cur, MAGIC, HEADER_LEN);
    if header.Err? {
      return Err(header.error);
    }
    var fields := ReadHeader(cur);
    if fields.Err? {
      return Err(fields.error);
    }
    var vs := ReadTable(cur, fields.value, budget);
    if vs.Err? {
      return Err(vs.error);
    }
    return Ok(Contents(fields.value.kind, fields.value.width, vs.value));
  }

  /** Offsets checked, the exact size charged, then the values copied. */
  method ReadTable(cur: Cursor, h: Header, budget: Budget) returns (res: Result<seq<seq<Byte>>, FormatError>)
    requires cur.Valid() && budget.Valid() && |cur.Rest()| < MAX_OBJECT
    modifies cur, budget
    ensures budget.Valid()
    ensures Budgeted(TableValues(h, old(cur.Rest())), RetainedIf(TableValues(h, old(cur.Rest()))),
                     old(budget.Remaining()), res, budget.charged - old(budget.charged))
  {
    ghost var b := cur.Rest();
    if h.count + 1 >= 0x1_0000_0000 {
      return Err(CorruptFile);
    }
    if |cur.bytes| - cur.pos < 4 || (h.count + 1) * 8 > |cur.bytes| - cur.pos - 4 {
      return Err(CorruptFile);
    }
    var first := cur.ReadU64();
    if first.value != 0 {
      return Err(CorruptFile);
    }
    var start := cur.pos;
    var checked := CheckOffsets(cur, h);
    if checked.Err? {
      return Err(checked.error);
    }
    if |cur.bytes| - cur.pos < 4 || h.dataBytes > |cur.bytes| - cur.pos - 4 {
      return Err(CorruptFile);
    }
    EndsWritten(h, 0, b[8..], h.count);
    var data := cur.bytes[cur.pos..cur.pos + h.dataBytes];
    assert data == cur.Rest()[..h.dataBytes];
    FlattenCut(data, TakeLengths(h, 0, b[8..], h.count).value.0);
    var charge := budget.Charge(VEC_SIZE * h.count + h.dataBytes);
    if charge.Err? {
      return Err(charge.error);
    }
    cur.pos := start;
    var vs := ReadValues(cur, h, data);
    return Ok(vs);
  }

  /** `read_from_bytes_with_budget`. */
  method Read(bytes: seq<Byte>, budget: Budget) returns (res: Result<Dictionary, FormatError>)
    requires budget.Valid() && |bytes| < MAX_OBJECT
    modifies budget
    ensures budget.Valid()
    ensures Budgeted(Parse(bytes), if Parse(bytes).Ok? then Retained(Parse(bytes).value.values) else 0,
                     old(budget.Remaining()), res, budget.charged - old(budget.charged))
  {
    if !Sealed(bytes) {
      return Err(CorruptFile);
    }
    var c := ReadZeroed(bytes[..|bytes| - 4] + Zeros(4), budget);
    if c.Err? {
      return Err(c.error);
    }
    return Ok(Dictionary(c.value.kind, c.value.width, c.value.values, Trailer(bytes)));
  }

  lemma {:induction false} EndsSnoc(previous: nat, lens: seq<nat>, len: nat)
    requires previous + Total(lens) + len < U64_LIMIT
    ensures Total(lens + [len]) == Total(lens) + len
    ensures PutEnds(previous, lens + [len]) == PutEnds(previous, lens) + Put64(previous + Total(lens) + len)
    decreases |lens|
  {
    if lens == [] {
      assert lens + [len] == [len] && [len][1..] == [];
      assert Total([len]) == len + Total([]);
      assert PutEnds(previous, [len]) == Put64(previous + len) + PutEnds(previous + len, []);
    } else {
      assert (lens + [len])[1..] == lens[1..] + [len];
      EndsSnoc(previous + lens[0], lens[1..], len);
      Regroup(Put64(previous + lens[0]), PutEnds(previous + lens[0], lens[1..]), Put64(previous + Total(lens) + len));
    }
  }

  lemma {:induction false} FlattenPrefix(vs: seq<seq<Byte>>, i: nat)
    requires i <= |vs|
    ensures |Flatten(vs[..i])| <= |Flatten(vs)|
  {
    FlattenAppend(vs[..i], vs[i..]);
    assert vs == vs[..i] + vs[i..];
  }

  /** One turn of the writer's loop: the data grows by a value, the offsets by its end. */
  lemma Appended(vs: seq<seq<Byte>>, i: nat)
    requires i < |vs| && |Flatten(vs)| < U64_LIMIT
    ensures Total(Lengths(vs[..i])) < U64_LIMIT && Total(Lengths(vs[..i + 1])) < U64_LIMIT
    ensures Flatten(vs[..i + 1]) == Flatten(vs[..i]) + vs[i] && |Flatten(vs[..i + 1])| < U64_LIMIT
    ensures Put64(0) + PutEnds(0, Lengths(vs[..i + 1]))
         == Put64(0) + PutEnds(0, Lengths(vs[..i])) + Put64(|Flatten(vs[..i + 1])|)
  {
    assert vs[..i + 1][..i] == vs[..i];
    FlattenPrefix(vs, i + 1);
    TotalIsLength(vs[..i]);
    TotalIsLength(vs[..i + 1]);
    assert Lengths(vs[..i + 1]) == Lengths(vs[..i]) + [|vs[i]|];
    EndsSnoc(0, Lengths(vs[..i]), |vs[i]|);
    Regroup(Put64(0), PutEnds(0, Lengths(vs[..i])), Put64(|Flatten(vs[..i + 1])|));
  }

  /** Offsets and data of the values so far. */
  ghost predicate Gathered(vs: seq<seq<Byte>>, offsets: seq<Byte>, data: seq<Byte>) {
    && Total(Lengths(vs)) < U64_LIMIT && data == Flatten(vs)
    && offsets == Put64(0) + PutEnds(0, Lengths(vs))
  }

  lemma GatheredNone()
    ensures Gathered([], Put64(0), [])
  {
    assert Lengths([]) == [];
    assert Put64(0) + PutEnds(0, []) == Put64(0);
  }

  lemma GatheredNext(vs: seq<seq<Byte>>, i: nat, offsets: seq<Byte>, data: seq<Byte>)
    requires i < |vs| && |Flatten(vs)| < U64_LIMIT && Gathered(vs[..i], offsets, data)
    ensures |data + vs[i]| < U64_LIMIT && Gathered(vs[..i + 1], offsets + Put64(|data + vs[i]|), data + vs[i])
  {
    Appended(vs, i);
  }

  /** The writer's loop: offsets and data grown value by value, widths checked as it goes. */
  method Gather(d: Dictionary) returns (ok: bool, offsets: seq<Byte>, data: seq<Byte>)
    requires |Flatten(d.values)| < U64_LIMIT
    ensures ok <==> !WidthMismatch(d)
    ensures ok ==> Gathered(d.values, offsets, data)
  {
    offsets, data := Put64(0), [];
    assert d.values[..0] == [];
    GatheredNone();
    for i := 0 to |d.values|
      invariant forall k :: 0 <= k < i ==> !WidthWrong(d, d.values[k])
      invariant Gathered(d.values[..i], offsets, data)
    {
      if WidthWrong(d, d.values[i]) {
        return false, offsets, data;
      }
      GatheredNext(d.values, i, offsets, data);
      data := data + d.values[i];
      offsets := offsets + Put64(|data|);
    }
    assert d.values[..|d.values|] == d.values;
    ok := true;
  }

  /** `write_to`: the gathered parts laid out and sealed. */
  method Write(d: Dictionary) returns (res: Result<seq<Byte>, FormatError>)
    requires |Flatten(d.values)| < U64_LIMIT
    ensures res == Print(d)
  {
    if |d.values| >= 0x1_0000_0000 {
      return Err(InvalidInput);
    }
    if d.kind == FixedBytes && d.width == 0 {
      return Err(InvalidInput);
    }
    if d.kind != FixedBytes && d.width != 0 {
      return Err(InvalidInput);
    }
    var ok, offsets, data := Gather(d);
    if !ok {
      return Err(InvalidInput);
    }
    var header := Header(d.kind, |d.values|, d.width, |data|);
    var buf := Envelope(MAGIC, HEADER_LEN) + PutHeader(header, Ignored(0, 0, 0), offsets + data);
    LaidOut(ContentsOf(d), offsets, data);
    var sum := Checksum(buf + Zeros(4));
    return Ok(buf + Put32(sum));
  }

  lemma LaidOut(c: Contents, offsets: seq<Byte>, data: seq<Byte>)
    requires |c.values| < 0x1_0000_0000 && |data| < U64_LIMIT && Gathered(c.values, offsets, data)
    ensures Body(c, Ignored(0, 0, 0), [])
         == Envelope(MAGIC, HEADER_LEN) + PutHeader(HeaderFor(c), Ignored(0, 0, 0), offsets + data)
  {
    TotalIsLength(c.values);
    Regroup(Put64(0), PutEnds(0, Lengths(c.values)), data);
    assert data + [] == data;
  }
}
