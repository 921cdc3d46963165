/** The string table: a counted list of length-prefixed UTF-8 strings under one checksum. */
module OcbStringTable {
  import opened Basics
  import opened Bytes
  import opened Crc32c
  import opened OcbReader

  const MAGIC: seq<Byte> := [0x4F, 0x43, 0x42, 0x53, 0x54, 0x52, 0x31, 0x00]   // "OCBSTR1\0"
  const HEADER_LEN: U16 := 20

  /** `size_of::<String>()` on a 64-bit target. */
  const STRING_SIZE: nat := 24

  datatype StringTable = StringTable(strings: seq<Utf8>, crc: U32)

  // ---------------------------------------------------------------- UTF-8

  predicate Continuation(b: Byte) { 0x80 <= b <= 0xBF }

  /** The length of the well-formed UTF-8 character at the front, 0 if there is none. */
  function CharLen(s: seq<Byte>): (n: nat)
    ensures n <= |s|
  {
    if |s| >= 1 && s[0] <= 0x7F then 1
    else if |s| >= 2 && 0xC2 <= s[0] <= 0xDF && Continuation(s[1]) then 2
    else if |s| >= 3 && Continuation(s[2])
         && ((s[0] == 0xE0 && 0xA0 <= s[1] <= 0xBF) || (0xE1 <= s[0] <= 0xEC && Continuation(s[1]))
             || (s[0] == 0xED && 0x80 <= s[1] <= 0x9F) || (0xEE <= s[0] <= 0xEF && Continuation(s[1]))) then 3
    else if |s| >= 4 && Continuation(s[2]) && Continuation(s[3])
         && ((s[0] == 0xF0 && 0x90 <= s[1] <= 0xBF) || (0xF1 <= s[0] <= 0xF3 && Continuation(s[1]))
             || (s[0] == 0xF4 && 0x80 <= s[1] <= 0x8F)) then 4
    else 0
  }

  predicate ValidUtf8(s: seq<Byte>)
    decreases |s|
  {
    s == [] || (CharLen(s) > 0 && ValidUtf8(s[CharLen(s)..]))
  }

  /** Any string a caller may hand to the writer. */
  type Text = s: seq<Byte> | ValidUtf8(s) witness []

  /** A string whose length the format can hold. */
  type Utf8 = s: seq<Byte> | |s| < 0x1_0000_0000 && ValidUtf8(s) witness []

  // ---------------------------------------------------------------- strings

  /** `read_string_u32_bounded`: length and bytes both end before the trailer. */
  function TakeString(b: seq<Byte>): Taken<Utf8> {
    if !Fits(b, 1, 4) then Err(CorruptFile)
    else
      var len, after := Get32(b[..4]), b[4..];
      if !Fits(after, len, 1) then Err(CorruptFile)
      else if ValidUtf8(after[..len]) then Ok((after[..len], after[len..]))
      else Err(CorruptFile)
  }

  function TakeStrings(b: seq<Byte>, count: nat): Taken<seq<Utf8>> { TakeAll(TakeString, b, count) }

  function PutString(s: Utf8): seq<Byte> { Put32(|s|) + s }

  function PutStrings(ss: seq<Utf8>): seq<Byte> {
    if ss == [] then [] else PutString(ss[0]) + PutStrings(ss[1..])
  }

  lemma StringTaken(s: Utf8, t: seq<Byte>)
    requires |t| >= 4
    ensures TakeString(PutString(s) + t) == Ok((s, t))
  {
    Regroup(Put32(|s|), s, t);
    TakePut32(|s|, s + t);
    TakeFront(s, t);
  }

  lemma StringPut(b: seq<Byte>)
    requires TakeString(b).Ok?
    ensures var (s, t) := TakeString(b).value;
            |t| >= 4 && b == PutString(s) + t
  {
    var (s, t) := TakeString(b).value;
    PutTake(b);
    assert b[4..] == s + t;
    Regroup(Put32(|s|), s, t);
  }

  /** A string is taken exactly where it was put, with the trailer still ahead. */
  lemma StringExact(b: seq<Byte>, s: Utf8, t: seq<Byte>)
    ensures TakeString(b) == Ok((s, t)) <==> |t| >= 4 && b == PutString(s) + t
  {
    if |t| >= 4 {
      StringTaken(s, t);
    }
    if TakeString(b).Ok? {
      StringPut(b);
    }
  }

  lemma StringsJoin(ss: seq<Utf8>, t: seq<Byte>)
    requires ss != []
    ensures PutStrings(ss) + t == PutString(ss[0]) + (PutStrings(ss[1..]) + t)
  {
  }

  /** Strings that were put are taken back. */
  lemma {:induction false} StringsRead(ss: seq<Utf8>, t: seq<Byte>)
    requires |t| >= 4
    ensures TakeStrings(PutStrings(ss) + t, |ss|) == Ok((ss, t))
    decreases |ss|
  {
    if ss == [] {
      assert PutStrings(ss) + t == t;
    } else {
      var after := PutStrings(ss[1..]) + t;
      StringsJoin(ss, t);
      StringExact(PutStrings(ss) + t, ss[0], after);
      StringsRead(ss[1..], t);
      assert ss == [ss[0]] + ss[1..];
    }
  }

  /** Strings that are taken were put, and the trailer is still ahead. */
  lemma {:induction false} StringsWritten(b: seq<Byte>, count: nat)
    requires |b| >= 4 && TakeStrings(b, count).Ok?
    ensures var (ss, t) := TakeStrings(b, count).value;
            |ss| == count && |t| >= 4 && b == PutStrings(ss) + t
    decreases count
  {
    if count == 0 {
      assert PutStrings([]) + b == b;
    } else {
      var first := TakeString(b).value;
      StringExact(b, first.0, first.1);
      StringsWritten(first.1, count - 1);
      var (ss, t) := TakeStrings(b, count).value;
      assert ss[1..] == TakeStrings(first.1, count - 1).value.0;
      StringsJoin(ss, t);
    }
  }

  // ---------------------------------------------------------------- the object

  /** The fields after the envelope, up to the first string. */
  function TakeCount(b: seq<Byte>): Taken<U32> {
    var count :- Take32(b);
    var reserved :- Take32(count.1);
    if Fits(reserved.1, count.0, 4) then Ok((count.0, reserved.1)) else Err(CorruptFile)
  }

  /** The strings in an object whose trailer has been zeroed. */
  function ParseZeroed(z: seq<Byte>): Result<seq<Utf8>, FormatError> {
    var header :- TakeEnvelope(MAGIC, HEADER_LEN, z);
    ParseCounted(header)
  }

  function ParseCounted(b: seq<Byte>): Result<seq<Utf8>, FormatError> {
    var count :- TakeCount(b);
    StringsIn(count.1, count.0)
  }

  function StringsIn(b: seq<Byte>, count: nat): Result<seq<Utf8>, FormatError> {
    var strings :- TakeStrings(b, count);
    Ok(strings.0)
  }

  /** What the reader accepts, and as which table. */
  function Parse(bytes: seq<Byte>): Result<StringTable, FormatError> {
    var z :- Unseal(bytes);
    var strings :- ParseZeroed(z);
    Ok(StringTable(strings, Trailer(bytes)))
  }

  /** `write_to` of a version-1 table. */
  function Print(texts: seq<Text>): Result<seq<Byte>, FormatError> {
    if |texts| >= 0x1_0000_0000 || !AllHeld(texts) then Err(InvalidInput)
    else Ok(Seal(Body(texts, 0)))
  }

  /** Every length fits its 32-bit field. */
  predicate AllHeld(texts: seq<Text>) { forall i :: 0 <= i < |texts| ==> |texts[i]| < 0x1_0000_0000 }

  /** The object up to its trailer, for any reserved word. */
  function Body(ss: seq<Utf8>, reserved: U32): seq<Byte>
    requires |ss| < 0x1_0000_0000
  {
    Envelope(MAGIC, HEADER_LEN) + (Put32(|ss|) + (Put32(reserved) + PutStrings(ss)))
  }

  lemma {:induction false} FourBytesEach(ss: seq<Utf8>)
    ensures |PutStrings(ss)| >= 4 * |ss|
  {
    if ss != [] {
      FourBytesEach(ss[1..]);
    }
  }

  lemma CountRead(ss: seq<Utf8>, reserved: U32, t: seq<Byte>)
    requires |ss| < 0x1_0000_0000 && |t| >= 4
    ensures TakeCount(Put32(|ss|) + (Put32(reserved) + (PutStrings(ss) + t))) == Ok((|ss|, PutStrings(ss) + t))
  {
    var after := PutStrings(ss) + t;
    TakePut32(|ss|, Put32(reserved) + after);
    TakePut32(reserved, after);
    FourBytesEach(ss);
  }

  lemma CountWritten(b: seq<Byte>)
    requires TakeCount(b).Ok?
    ensures var (n, t) := TakeCount(b).value;
            |t| >= 4 && b == Put32(n) + (Put32(Take32(Take32(b).value.1).value.0) + t)
  {
    PutTake(b);
    PutTake(Take32(b).value.1);
  }

  /** The bytes of an object that holds the given strings, with slack before its trailer. */
  ghost predicate Holds(bytes: seq<Byte>, table: StringTable) {
    && Sealed(bytes) && table.crc == Trailer(bytes) && |table.strings| < 0x1_0000_0000
    && exists reserved, slack :: bytes[..|bytes| - 4] == Body(table.strings, reserved) + slack
  }

  lemma BodyJoin(ss: seq<Utf8>, reserved: U32, t: seq<Byte>)
    requires |ss| < 0x1_0000_0000
    ensures Body(ss, reserved) + t ==
            Envelope(MAGIC, HEADER_LEN) + (Put32(|ss|) + (Put32(reserved) + (PutStrings(ss) + t)))
  {
    Join4(Envelope(MAGIC, HEADER_LEN), Put32(|ss|), Put32(reserved), PutStrings(ss), t);
  }

  lemma Join4(a: seq<Byte>, b: seq<Byte>, c: seq<Byte>, d: seq<Byte>, t: seq<Byte>)
    ensures a + (b + (c + d)) + t == a + (b + (c + (d + t)))
  {
  }

  lemma BodyRead(ss: seq<Utf8>, reserved: U32, t: seq<Byte>)
    requires |ss| < 0x1_0000_0000 && |t| >= 4
    ensures ParseZeroed(Body(ss, reserved) + t) == Ok(ss)
  {
    var header := Put32(|ss|) + (Put32(reserved) + (PutStrings(ss) + t));
    BodyJoin(ss, reserved, t);
    EnvelopeExact(MAGIC, HEADER_LEN, Body(ss, reserved) + t, header);
    CountRead(ss, reserved, t);
    StringsRead(ss, t);
  }

  lemma BodyWritten(z: seq<Byte>) returns (reserved: U32, t: seq<Byte>)
    requires ParseZeroed(z).Ok?
    ensures var ss := ParseZeroed(z).value;
            |ss| < 0x1_0000_0000 && |t| >= 4 && z == Body(ss, reserved) + t
  {
    var header := TakeEnvelope(MAGIC, HEADER_LEN, z).value;
    EnvelopeExact(MAGIC, HEADER_LEN, z, header);
    var (n, b) := TakeCount(header).value;
    CountWritten(header);
    StringsWritten(b, n);
    t := TakeStrings(b, n).value.1;
    reserved := Take32(Take32(header).value.1).value.0;
    BodyJoin(ParseZeroed(z).value, reserved, t);
  }

  lemma HeldIsParsed(bytes: seq<Byte>, table: StringTable)
    requires Holds(bytes, table)
    ensures Parse(bytes) == Ok(table)
  {
    var reserved, slack :| bytes[..|bytes| - 4] == Body(table.strings, reserved) + slack;
    var body := Body(table.strings, reserved);
    BodyRead(table.strings, reserved, slack + Zeros(4));
    Regroup(body, slack, Zeros(4));
  }

  lemma ParsedIsHeld(bytes: seq<Byte>)
    requires Parse(bytes).Ok?
    ensures Holds(bytes, Parse(bytes).value)
  {
    var z := Unseal(bytes).value;
    var reserved, t := BodyWritten(z);
    var body := Body(ParseZeroed(z).value, reserved);
    DropTrailer(bytes[..|bytes| - 4], body, t);
  }

  /** The reader accepts exactly the objects that hold a table, and reads that table. */
  lemma ParseExact(bytes: seq<Byte>, table: StringTable)
    ensures Parse(bytes) == Ok(table) <==> Holds(bytes, table)
  {
    if Holds(bytes, table) {
      HeldIsParsed(bytes, table);
    }
    if Parse(bytes) == Ok(table) {
      ParsedIsHeld(bytes);
    }
  }

  /** A table is written exactly when its counts and lengths fit, and reading it returns its strings. */
  lemma ParseOfPrint(texts: seq<Text>)
    ensures Print(texts).Ok? <==> |texts| < 0x1_0000_0000 && AllHeld(texts)
    ensures Print(texts).Ok? ==>
              Parse(Print(texts).value) == Ok(StringTable(texts, Checksum(Body(texts, 0) + Zeros(4))))
  {
    if |texts| < 0x1_0000_0000 && AllHeld(texts) {
      SealOpens(Body(texts, 0));
      BodyRead(texts, 0, Zeros(4));
    }
  }

  // ---------------------------------------------------------------- as it runs

  /** Heap and vector bytes a materialized table keeps. */
  function Retained(ss: seq<Utf8>): nat { STRING_SIZE * |ss| + TextBytes(ss) }

  function TextBytes(ss: seq<Utf8>): nat {
    if ss == [] then 0 else |ss[0]| + TextBytes(ss[1..])
  }

  lemma {:induction false} TextFits(ss: seq<Utf8>)
    ensures TextBytes(ss) + 4 * |ss| == |PutStrings(ss)|
  {
    if ss != [] {
      TextFits(ss[1..]);
    }
  }

  /** `inspect_string_u32_bounded`: check one string without copying it. */
  method InspectString(cur: Cursor) returns (res: Result<U32, FormatError>)
    requires cur.Valid()
    modifies cur
    ensures cur.Valid()
    ensures match TakeString(old(cur.Rest()))
            case Ok(taken) => res == Ok(|taken.0|) && cur.Rest() == taken.1
            case Err(e) => res == Err(e)
  {
    ghost var b := cur.Rest();
    if |cur.bytes| - cur.pos < 4 || |cur.bytes| - cur.pos - 4 < 4 {
      return Err(CorruptFile);
    }
    var field := cur.ReadU32();
    var len := field.value;
    if |cur.bytes| - cur.pos - 4 < len {
      return Err(CorruptFile);
    }
    var text := cur.bytes[cur.pos..cur.pos + len];
    assert text == b[4..][..len];
    if !ValidUtf8(text) {
      return Err(CorruptFile);
    }
    cur.pos := cur.pos + len;
    assert cur.Rest() == b[4..][len..];
    return Ok(len);
  }

  /** The strings inspected so far, the bytes after them, and their text bytes. */
  ghost predicate Inspected(b: seq<Byte>, done: seq<Utf8>, rest: seq<Byte>, total: int) {
    |rest| >= 4 && b == PutStrings(done) + rest && total == TextBytes(done)
  }

  lemma InspectedNone(b: seq<Byte>)
    requires |b| >= 4
    ensures Inspected(b, [], b, 0)
  {
  }

  lemma InspectedNext(b: seq<Byte>, done: seq<Utf8>, s: Utf8, rest: seq<Byte>, total: int)
    requires |rest| >= 4 && |b| < MAX_OBJECT && Inspected(b, done, PutString(s) + rest, total)
    ensures Inspected(b, done + [s], rest, total + |s|) && 0 <= total + |s| < MAX_OBJECT
  {
    Snoc(done, s, rest);
    TextFits(done + [s]);
  }

  /** One string further in the first pass. */
  lemma InspectionStep(whole: Taken<seq<Utf8>>, b: seq<Byte>, done: seq<Utf8>, rest: seq<Byte>, left: nat, total: int)
    requires left > 0 && |b| < MAX_OBJECT
    requires Underway(TakeString, whole, done, rest, left) && Inspected(b, done, rest, total)
    ensures TakeString(rest).Err? ==> whole == Err(TakeString(rest).error)
    ensures TakeString(rest).Ok? ==>
              var (s, t) := TakeString(rest).value;
              && Underway(TakeString, whole, done + [s], t, left - 1) && Inspected(b, done + [s], t, total + |s|)
              && 0 <= total + |s| < MAX_OBJECT
  {
    Advance(TakeString, whole, done, rest, left);
    if TakeString(rest).Ok? {
      var (s, t) := TakeString(rest).value;
      StringExact(rest, s, t);
      InspectedNext(b, done, s, t, total);
    }
  }

  /** The first pass: every string checked, the text bytes counted. */
  method InspectStrings(cur: Cursor, count: U32) returns (res: Result<U64, FormatError>)
    requires cur.Valid() && 4 <= |cur.Rest()| < MAX_OBJECT
    modifies cur
    ensures cur.Valid()
    ensures match TakeStrings(old(cur.Rest()), count)
            case Ok(taken) => res == Ok(TextBytes(taken.0)) && cur.Rest() == taken.1
            case Err(e) => res == Err(e)
  {
    ghost var b := cur.Rest();
    ghost var whole := TakeStrings(b, count);
    ghost var done: seq<Utf8> := [];
    Begin(TakeString, b, count);
    InspectedNone(b);
    var total: U64 := 0;
    for i := 0 to count
      invariant cur.Valid() && Underway(TakeString, whole, done, cur.Rest(), count - i)
      invariant Inspected(b, done, cur.Rest(), total)
    {
      ghost var before := cur.Rest();
      InspectionStep(whole, b, done, before, count - i, total);
      var len := InspectString(cur);
      if len.Err? {
        return Err(len.error);
      }
      total := total + len.value;
      done := done + [TakeString(before).value.0];
    }
    End(TakeString, whole, done, cur.Rest());
    return Ok(total);
  }

  lemma {:induction false} Snoc(ss: seq<Utf8>, s: Utf8, t: seq<Byte>)
    ensures PutStrings(ss + [s]) + t == PutStrings(ss) + (PutString(s) + t)
    ensures TextBytes(ss + [s]) == TextBytes(ss) + |s|
    decreases |ss|
  {
    if ss == [] {
      assert ss + [s] == [s] && [s][1..] == [];
      assert PutStrings([s]) == PutString(s) + PutStrings([]);
    } else {
      assert (ss + [s])[1..] == ss[1..] + [s];
      Snoc(ss[1..], s, t);
      StringsJoin(ss + [s], t);
      StringsJoin(ss, PutString(s) + t);
    }
  }

  /** The second pass, over bytes the first has accepted: it cannot fail. */
  method ReadStrings(cur: Cursor, count: U32) returns (ss: seq<Utf8>)
    requires cur.Valid() && TakeStrings(cur.Rest(), count).Ok?
    modifies cur
    ensures cur.Valid() && TakeStrings(old(cur.Rest()), count) == Ok((ss, cur.Rest()))
  {
    ghost var whole := TakeStrings(cur.Rest(), count);
    Begin(TakeString, cur.Rest(), count);
    ss := [];
    for i := 0 to count
      invariant cur.Valid() && Underway(TakeString, whole, ss, cur.Rest(), count - i)
    {
      Advance(TakeString, whole, ss, cur.Rest(), count - i);
      var s := ReadString(cur);
      ss := ss + [s];
    }
    End(TakeString, whole, ss, cur.Rest());
  }

  /** `read_string_u32_bounded` on bytes already inspected. */
  method ReadString(cur: Cursor) returns (s: Utf8)
    requires cur.Valid() && TakeString(cur.Rest()).Ok?
    modifies cur
    ensures cur.Valid() && TakeString(old(cur.Rest())) == Ok((s, cur.Rest()))
  {
    ghost var b := cur.Rest();
    var field := cur.ReadU32();
    var len := field.value;
    assert cur.bytes[cur.pos..cur.pos + len] == b[4..][..len];
    s := cur.bytes[cur.pos..cur.pos + len];
    cur.pos := cur.pos + len;
    assert cur.Rest() == b[4..][len..];
  }

  /** The header fields, count check included. */
  method ReadCount(cur: Cursor) returns (res: Result<U32, FormatError>)
    requires cur.Valid()
    modifies cur
    ensures cur.Valid() && Moved(TakeCount(old(cur.Rest())), res, cur.Rest())
  {
    var count := cur.ReadU32();
    if count.Err? {
      return Err(count.error);
    }
    var reserved := cur.ReadU32();
    if reserved.Err? {
      return Err(reserved.error);
    }
    if |cur.bytes| - cur.pos < 4 || count.value * 4 > |cur.bytes| - cur.pos - 4 {
      return Err(CorruptFile);
    }
    return Ok(count.value);
  }

  ghost function RetainedIf(ss: Result<seq<Utf8>, FormatError>): nat {
    match ss case Ok(strings) => Retained(strings) case Err(_) => 0
  }

  /** The two passes: strings inspected, the exact size charged, then the strings copied. */
  method ReadBody(cur: Cursor, count: U32, budget: Budget) returns (res: Result<seq<Utf8>, FormatError>)
    requires cur.Valid() && budget.Valid() && 4 <= |cur.Rest()| < MAX_OBJECT
    modifies cur, budget
    ensures budget.Valid()
    ensures Budgeted(StringsIn(old(cur.Rest()), count), RetainedIf(StringsIn(old(cur.Rest()), count)),
                     old(budget.Remaining()), res, budget.charged - old(budget.charged))
  {
    var start := cur.pos;
    ghost var b := cur.Rest();
    var text := InspectStrings(cur, count);
    if text.Err? {
      return Err(text.error);
    }
    StringsWritten(b, count);
    TextFits(TakeStrings(b, count).value.0);
    var charge := budget.Charge(STRING_SIZE * count + text.value);
    if charge.Err? {
      return Err(charge.error);
    }
    cur.pos := start;
    var ss := ReadStrings(cur, count);
    return Ok(ss);
  }

  /** An object whose trailer has been zeroed. */
  method ReadZeroed(z: seq<Byte>, budget: Budget) returns (res: Result<seq<Utf8>, FormatError>)
    requires budget.Valid() && |z| < MAX_OBJECT
    modifies budget
    ensures budget.Valid()
    ensures Budgeted(ParseZeroed(z), RetainedIf(ParseZeroed(z)),
                     old(budget.Remaining()), res, budget.charged - old(budget.charged))
  {
    var cur := new Cursor(z);
    var header := ReadEnvelope(cur, MAGIC, HEADER_LEN);
    if header.Err? {
      return Err(header.error);
    }
    res := ReadCounted(cur, budget);
  }

  /** The count, then the strings. */
  method ReadCounted(cur: Cursor, budget: Budget) returns (res: Result<seq<Utf8>, FormatError>)
    requires cur.Valid() && budget.Valid() && |cur.bytes| < MAX_OBJECT
    modifies cur, budget
    ensures budget.Valid()
    ensures Budgeted(ParseCounted(old(cur.Rest())), RetainedIf(ParseCounted(old(cur.Rest()))),
                     old(budget.Remaining()), res, budget.charged - old(budget.charged))
  {
    var count := ReadCount(cur);
    if count.Err? {
      return Err(count.error);
    }
    res := ReadBody(cur, count.value, budget);
  }

  /** `read_from_bytes_with_budget`: structure first, then the exact charge, then the table. */
  method Read(bytes: seq<Byte>, budget: Budget) returns (res: Result<StringTable, FormatError>)
    requires budget.Valid() && |bytes| < MAX_OBJECT
    modifies budget
    ensures budget.Valid()
    ensures Budgeted(Parse(bytes), if Parse(bytes).Ok? then Retained(Parse(bytes).value.strings) else 0,
                     old(budget.Remaining()), res, budget.charged - old(budget.charged))
  {
    if !Sealed(bytes) {
      return Err(CorruptFile);
    }
    var read := ReadZeroed(bytes[..|bytes| - 4] + Zeros(4), budget);
    if read.Err? {
      return Err(read.error);
    }
    return Ok(StringTable(read.value, Trailer(bytes)));
  }

  /** `write_to`: the buffer grown string by string, then its trailer patched; a string too long stops it. */
  method Write(texts: seq<Text>) returns (res: Result<seq<Byte>, FormatError>)
    ensures res == Print(texts)
  {
    if |texts| >= 0x1_0000_0000 {
      return Err(InvalidInput);
    }
    ghost var head := Envelope(MAGIC, HEADER_LEN) + Put32(|texts|) + Put32(0);
    var buf := MAGIC + Put16(1) + Put16(HEADER_LEN) + Put32(|texts|) + Put32(0);
    for i := 0 to |texts|
      invariant AllHeld(texts[..i]) && buf == head + PutStrings(texts[..i])
    {
      if |texts[i]| >= 0x1_0000_0000 {
        return Err(InvalidInput);
      }
      assert texts[..i + 1] == texts[..i] + [texts[i]];
      WriteNext(head, texts[..i], texts[i]);
      buf := buf + (Put32(|texts[i]|) + texts[i]);
    }
    assert texts[..|texts|] == texts;
    HeadJoin(Envelope(MAGIC, HEADER_LEN), Put32(|texts|), Put32(0), PutStrings(texts));
    var sum := Checksum(buf + Zeros(4));
    return Ok(buf + Put32(sum));
  }

  lemma WriteNext(head: seq<Byte>, ss: seq<Utf8>, s: Utf8)
    ensures head + PutStrings(ss) + PutString(s) == head + PutStrings(ss + [s])
  {
    Snoc(ss, s, []);
    Grown(head, PutStrings(ss), PutString(s), PutStrings(ss + [s]));
  }

  lemma Grown(head: seq<Byte>, done: seq<Byte>, next: seq<Byte>, all: seq<Byte>)
    requires all + [] == done + (next + [])
    ensures head + done + next == head + all
  {
    assert all + [] == all && next + [] == next;
  }

  lemma HeadJoin(e: seq<Byte>, n: seq<Byte>, r: seq<Byte>, text: seq<Byte>)
    ensures e + n + r + text == e + (n + (r + text))
  {
  }
}
