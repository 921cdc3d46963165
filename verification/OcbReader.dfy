/**
 Reading an OCB object: a cursor over the object's bytes, fields taken off its front,
 counted record sequences, and the materialization budget.
 */
module OcbReader {
  import opened Basics
  import opened Bytes
  import opened Crc32c

  datatype FormatError = CorruptFile | UnsupportedFormat | InvalidInput

  /** A value and the bytes after it. */
  type Taken<T> = Result<(T, seq<Byte>), FormatError>

  // ---------------------------------------------------------------- fields

  function Take(b: seq<Byte>, n: nat): Taken<seq<Byte>> {
    if |b| < n then Err(CorruptFile) else Ok((b[..n], b[n..]))
  }

  function Take16(b: seq<Byte>): Taken<U16> {
    if |b| < 2 then Err(CorruptFile) else Ok((Get16(b[..2]), b[2..]))
  }

  function Take32(b: seq<Byte>): Taken<U32> {
    if |b| < 4 then Err(CorruptFile) else Ok((Get32(b[..4]), b[4..]))
  }

  function Take64(b: seq<Byte>): Taken<U64> {
    if |b| < 8 then Err(CorruptFile) else Ok((Get64(b[..8]), b[8..]))
  }

  lemma TakeFront(x: seq<Byte>, t: seq<Byte>)
    ensures Take(x + t, |x|) == Ok((x, t))
  {
    assert (x + t)[..|x|] == x && (x + t)[|x|..] == t;
  }

  lemma Regroup<T>(a: seq<T>, b: seq<T>, c: seq<T>)
    ensures (a + b) + c == a + (b + c)
  {
  }

  lemma TakePut16(x: U16, t: seq<Byte>)
    ensures Take16(Put16(x) + t) == Ok((x, t))
  {
    TakeFront(Put16(x), t);
    GetPut16(x);
  }

  lemma TakePut32(x: U32, t: seq<Byte>)
    ensures Take32(Put32(x) + t) == Ok((x, t))
  {
    TakeFront(Put32(x), t);
    GetPut32(x);
  }

  lemma TakePut64(x: U64, t: seq<Byte>)
    ensures Take64(Put64(x) + t) == Ok((x, t))
  {
    TakeFront(Put64(x), t);
    GetPut64(x);
  }

  lemma PutTake(b: seq<Byte>)
    ensures Take16(b).Ok? ==> b == Put16(Take16(b).value.0) + Take16(b).value.1
    ensures Take32(b).Ok? ==> b == Put32(Take32(b).value.0) + Take32(b).value.1
    ensures Take64(b).Ok? ==> b == Put64(Take64(b).value.0) + Take64(b).value.1
  {
    if |b| >= 2 {
      PutGet16(b[..2]);
    }
    if |b| >= 4 {
      PutGet32(b[..4]);
    }
    if |b| >= 8 {
      PutGet64(b[..8]);
    }
  }

  /** The bound on the length of any byte vector. */
  const MAX_OBJECT: nat := 0x8000_0000_0000_0000

  // ---------------------------------------------------------------- the sealed envelope

  /** The object with its trailer zeroed, once the trailer matches. */
  function Unseal(bytes: seq<Byte>): Result<seq<Byte>, FormatError> {
    if Sealed(bytes) then Ok(bytes[..|bytes| - 4] + Zeros(4)) else Err(CorruptFile)
  }

  function Trailer(bytes: seq<Byte>): U32
    requires |bytes| >= 4
  {
    Get32(bytes[|bytes| - 4..])
  }

  /** The trailer's zeros are the last of whatever follows a body. */
  lemma DropTrailer(front: seq<Byte>, body: seq<Byte>, t: seq<Byte>)
    requires |t| >= 4 && front + Zeros(4) == body + t
    ensures front == body + t[..|t| - 4] && t == t[..|t| - 4] + Zeros(4)
  {
    assert front == (front + Zeros(4))[..|front|];
    assert t[|t| - 4..] == (body + t)[|front|..];
    assert (front + Zeros(4))[|front|..] == Zeros(4);
  }

  lemma SealOpens(body: seq<Byte>)
    ensures Unseal(Seal(body)) == Ok(body + Zeros(4)) && Trailer(Seal(body)) == Checksum(body + Zeros(4))
  {
    var c := Checksum(body + Zeros(4));
    SealIsSealed(body);
    assert Seal(body)[|body|..] == Put32(c);
    GetPut32(c);
  }

  /** Magic, version 1 and the header length every version-1 object starts with. */
  function Envelope(magic: seq<Byte>, headerLen: U16): seq<Byte> { magic + Put16(1) + Put16(headerLen) }

  /** The bytes after a good envelope, or why it is refused. */
  function TakeEnvelope(magic: seq<Byte>, headerLen: U16, b: seq<Byte>): Result<seq<Byte>, FormatError> {
    var found :- Take(b, 8);
    if found.0 != magic then Err(CorruptFile)
    else
      var version :- Take16(found.1);
      if version.0 != 1 then Err(UnsupportedFormat)
      else
        var length :- Take16(version.1);
        if length.0 != headerLen then Err(CorruptFile) else Ok(length.1)
  }

  /** The envelope is accepted exactly when it is the expected bytes. */
  lemma EnvelopeExact(magic: seq<Byte>, headerLen: U16, b: seq<Byte>, t: seq<Byte>)
    requires |magic| == 8
    ensures TakeEnvelope(magic, headerLen, b) == Ok(t) <==> b == Envelope(magic, headerLen) + t
  {
    if b == Envelope(magic, headerLen) + t {
      assert b == magic + (Put16(1) + (Put16(headerLen) + t));
      TakeFront(magic, Put16(1) + (Put16(headerLen) + t));
      TakePut16(1, Put16(headerLen) + t);
      TakePut16(headerLen, t);
    }
    if TakeEnvelope(magic, headerLen, b) == Ok(t) {
      var after := b[8..];
      PutTake(after);
      PutTake(Take16(after).value.1);
      assert b == magic + after;
    }
  }

  // ---------------------------------------------------------------- bounds before the trailer

  /**
   `checked_record_count` and `checked_payload_len`: with the cursor before `b`, `count`
   items of `width` bytes end before the four trailer bytes.
   */
  predicate Fits(b: seq<Byte>, count: nat, width: nat) {
    |b| >= 4 && count * width <= |b| - 4
  }

  // ---------------------------------------------------------------- record sequences

  /** `count` records, each taken by `take`, until one fails. */
  function TakeAll<T(!new)>(take: seq<Byte> -> Taken<T>, b: seq<Byte>, count: nat): Taken<seq<T>>
    decreases count
  {
    if count == 0 then Ok(([], b))
    else
      var first :- take(b);
      var others :- TakeAll(take, first.1, count - 1);
      Ok(([first.0] + others.0, others.1))
  }

  /** `take` reads back what `put` wrote in front of any bytes, for the values `ok` admits. */
  ghost predicate Reads<T(!new)>(take: seq<Byte> -> Taken<T>, put: (T, seq<Byte>) -> seq<Byte>, ok: T -> bool) {
    forall x, t :: ok(x) ==> take(put(x, t)) == Ok((x, t))
  }

  predicate Admits<T(!new)>(ok: T -> bool, xs: seq<T>) { forall i :: 0 <= i < |xs| ==> ok(xs[i]) }

  /** Records in order, in front of `t`. */
  function PutAll<T(!new)>(put: (T, seq<Byte>) -> seq<Byte>, xs: seq<T>, t: seq<Byte>): seq<Byte>
    decreases |xs|
  {
    if xs == [] then t else put(xs[0], PutAll(put, xs[1..], t))
  }

  /** Record sequences are read back whole. */
  lemma TakePutAll<T(!new)>(
    take: seq<Byte> -> Taken<T>, put: (T, seq<Byte>) -> seq<Byte>, ok: T -> bool, xs: seq<T>, t: seq<Byte>)
    requires Reads(take, put, ok) && Admits(ok, xs)
    ensures TakeAll(take, PutAll(put, xs, t), |xs|) == Ok((xs, t))
  {
    TakePutStored(take, put, x => x, ok, xs, t);
    assert Values(x => x, xs) == xs;
  }

  // A stored form `W` of a record may hold words the reader ignores.

  ghost predicate ReadsAs<T(!new), W(!new)>(
    take: seq<Byte> -> Taken<T>, put: (W, seq<Byte>) -> seq<Byte>, value: W -> T, ok: W -> bool)
  {
    forall w, t :: ok(w) ==> take(put(w, t)) == Ok((value(w), t))
  }

  function Values<T(!new), W(!new)>(value: W -> T, ws: seq<W>): (xs: seq<T>)
    ensures |xs| == |ws|
  {
    seq(|ws|, i requires 0 <= i < |ws| => value(ws[i]))
  }

  lemma {:induction false} TakePutStored<T(!new), W(!new)>(
    take: seq<Byte> -> Taken<T>, put: (W, seq<Byte>) -> seq<Byte>, value: W -> T, ok: W -> bool, ws: seq<W>, t: seq<Byte>)
    requires ReadsAs(take, put, value, ok) && Admits(ok, ws)
    ensures TakeAll(take, PutAll(put, ws, t), |ws|) == Ok((Values(value, ws), t))
    decreases |ws|
  {
    if ws != [] {
      var w, rest := ws[0], PutAll(put, ws[1..], t);
      assert take(put(w, rest)) == Ok((value(w), rest));
      TakePutStored(take, put, value, ok, ws[1..], t);
      assert Values(value, ws) == [value(w)] + Values(value, ws[1..]);
    } else {
      assert Values(value, ws) == [];
    }
  }

  /** Whatever `take` accepts is some stored form of what it returns. */
  ghost predicate AcceptsOnly<T(!new), W(!new)>(
    take: seq<Byte> -> Taken<T>, put: (W, seq<Byte>) -> seq<Byte>, value: W -> T, ok: W -> bool)
  {
    forall b :: take(b).Ok? ==>
      exists w :: ok(w) && value(w) == take(b).value.0 && b == put(w, take(b).value.1)
  }

  /** An accepted record sequence is stored forms of its records, in order. */
  lemma {:induction false} TakeAllStored<T(!new), W(!new)>(
    take: seq<Byte> -> Taken<T>, put: (W, seq<Byte>) -> seq<Byte>, value: W -> T, ok: W -> bool, b: seq<Byte>, count: nat)
    returns (ws: seq<W>)
    requires AcceptsOnly(take, put, value, ok) && TakeAll(take, b, count).Ok?
    ensures |ws| == count && Admits(ok, ws) && Values(value, ws) == TakeAll(take, b, count).value.0
    ensures b == PutAll(put, ws, TakeAll(take, b, count).value.1)
    decreases count
  {
    if count == 0 {
      ws := [];
    } else {
      var first := take(b).value;
      var w :| ok(w) && value(w) == first.0 && b == put(w, first.1);
      var others := TakeAllStored(take, put, value, ok, first.1, count - 1);
      ws := [w] + others;
      assert ws[1..] == others;
      assert Values(value, ws) == [value(w)] + Values(value, others);
    }
  }

  ghost predicate Extends<T(!new)>(put: (T, seq<Byte>) -> seq<Byte>) {
    forall x, t, u :: put(x, t) + u == put(x, t + u)
  }

  lemma {:induction false} PutAllExtends<T(!new)>(
    put: (T, seq<Byte>) -> seq<Byte>, xs: seq<T>, t: seq<Byte>, u: seq<Byte>)
    requires Extends(put)
    ensures PutAll(put, xs, t) + u == PutAll(put, xs, t + u)
    decreases |xs|
  {
    if xs != [] {
      PutAllExtends(put, xs[1..], t, u);
      assert put(xs[0], PutAll(put, xs[1..], t)) + u == put(xs[0], PutAll(put, xs[1..], t) + u);
    }
  }

  /** A record is always the same `w` bytes. */
  ghost predicate Width<T(!new)>(take: seq<Byte> -> Taken<T>, w: nat) {
    forall b :: take(b).Ok? ==> |b| >= w && take(b).value.1 == b[w..]
  }

  lemma DropTwice<T>(s: seq<T>, i: nat, j: nat)
    requires i + j <= |s|
    ensures s[i..][j..] == s[i + j..]
  {
  }

  lemma {:induction false} TakeAllWidth<T(!new)>(take: seq<Byte> -> Taken<T>, w: nat, b: seq<Byte>, count: nat)
    requires Width(take, w) && TakeAll(take, b, count).Ok?
    ensures |TakeAll(take, b, count).value.0| == count
    ensures |b| >= count * w && TakeAll(take, b, count).value.1 == b[count * w..]
    decreases count
  {
    if count > 0 {
      TakeAllWidth(take, w, take(b).value.1, count - 1);
      assert count * w == w + (count - 1) * w;
      DropTwice(b, w, (count - 1) * w);
    }
  }

  /** With `done` taken and the cursor before `b`, `left` more records finish the sequence. */
  ghost predicate Underway<T(!new)>(
    take: seq<Byte> -> Taken<T>, whole: Taken<seq<T>>, done: seq<T>, b: seq<Byte>, left: nat)
  {
    whole == match TakeAll(take, b, left)
             case Ok(others) => Ok((done + others.0, others.1))
             case Err(e) => Err(e)
  }

  lemma Begin<T(!new)>(take: seq<Byte> -> Taken<T>, b: seq<Byte>, count: nat)
    ensures Underway(take, TakeAll(take, b, count), [], b, count)
  {
    var all := TakeAll(take, b, count);
    if all.Ok? {
      assert [] + all.value.0 == all.value.0;
    }
  }

  lemma Advance<T(!new)>(take: seq<Byte> -> Taken<T>, whole: Taken<seq<T>>, done: seq<T>, b: seq<Byte>, left: nat)
    requires left > 0 && Underway(take, whole, done, b, left)
    ensures match take(b)
            case Ok(first) => Underway(take, whole, done + [first.0], first.1, left - 1)
            case Err(e) => whole == Err(e)
  {
    if take(b).Ok? {
      var first := take(b).value;
      var others := TakeAll(take, first.1, left - 1);
      if others.Ok? {
        assert done + ([first.0] + others.value.0) == (done + [first.0]) + others.value.0;
      }
    }
  }

  lemma End<T(!new)>(take: seq<Byte> -> Taken<T>, whole: Taken<seq<T>>, done: seq<T>, b: seq<Byte>)
    requires Underway(take, whole, done, b, 0)
    ensures whole == Ok((done, b))
  {
    assert done + [] == done;
  }

  // ---------------------------------------------------------------- as it runs

  /** `std::io::Cursor` over an object's bytes. */
  class Cursor {
    const bytes: seq<Byte>
    var pos: nat

    ghost predicate Valid()
      reads this
    {
      pos <= |bytes|
    }

    /** The bytes still ahead. */
    ghost function Rest(): seq<Byte>
      requires Valid()
      reads this
    {
      bytes[pos..]
    }

    constructor (bytes: seq<Byte>)
      ensures Valid() && this.bytes == bytes && Rest() == bytes && pos == 0
    {
      this.bytes := bytes;
      pos := 0;
    }

    /** `read_exact_ocb`. */
    method ReadExact(n: nat) returns (res: Result<seq<Byte>, FormatError>)
      requires Valid()
      modifies this
      ensures Valid() && Moved(Take(old(Rest()), n), res, Rest())
    {
      if |bytes| - pos < n {
        return Err(CorruptFile);
      }
      res := Ok(bytes[pos..pos + n]);
      pos := pos + n;
      assert old(Rest())[..n] == bytes[old(pos)..old(pos) + n] && old(Rest())[n..] == Rest();
    }

    method ReadU16() returns (res: Result<U16, FormatError>)
      requires Valid()
      modifies this
      ensures Valid() && Moved(Take16(old(Rest())), res, Rest())
    {
      var field := ReadExact(2);
      if field.Err? {
        return Err(field.error);
      }
      return Ok(Get16(field.value));
    }

    method ReadU32() returns (res: Result<U32, FormatError>)
      requires Valid()
      modifies this
      ensures Valid() && Moved(Take32(old(Rest())), res, Rest())
    {
      var field := ReadExact(4);
      if field.Err? {
        return Err(field.error);
      }
      return Ok(Get32(field.value));
    }

    method ReadU64() returns (res: Result<U64, FormatError>)
      requires Valid()
      modifies this
      ensures Valid() && Moved(Take64(old(Rest())), res, Rest())
    {
      var field := ReadExact(8);
      if field.Err? {
        return Err(field.error);
      }
      return Ok(Get64(field.value));
    }
  }

  /** The envelope read from a cursor. */
  method ReadEnvelope(cur: Cursor, magic: seq<Byte>, headerLen: U16) returns (res: Result<(), FormatError>)
    requires cur.Valid()
    modifies cur
    ensures cur.Valid()
    ensures match TakeEnvelope(magic, headerLen, old(cur.Rest()))
            case Ok(t) => res == Ok(()) && cur.Rest() == t
            case Err(e) => res == Err(e)
  {
    var found := cur.ReadExact(8);
    if found.Err? {
      return Err(found.error);
    }
    if found.value != magic {
      return Err(CorruptFile);
    }
    var version := cur.ReadU16();
    if version.Err? {
      return Err(version.error);
    }
    if version.value != 1 {
      return Err(UnsupportedFormat);
    }
    var length := cur.ReadU16();
    if length.Err? {
      return Err(length.error);
    }
    if length.value != headerLen {
      return Err(CorruptFile);
    }
    return Ok(());
  }

  /** A cursor operation did what taking from its remaining bytes specifies. */
  ghost predicate Moved<T>(spec: Taken<T>, res: Result<T, FormatError>, after: seq<Byte>) {
    match spec
    case Ok(taken) => res == Ok(taken.0) && after == taken.1
    case Err(e) => res == Err(e)
  }

  /** `validate_record_sequence`: the first pass, records decoded and dropped. */
  method ValidateRecords<T(!new)>(cur: Cursor, count: nat, take: seq<Byte> -> Taken<T>, w: nat)
    returns (res: Result<(), FormatError>)
    requires cur.Valid() && Width(take, w)
    modifies cur
    ensures cur.Valid()
    ensures match TakeAll(take, old(cur.Rest()), count)
            case Ok(taken) => res == Ok(()) && cur.Rest() == taken.1
            case Err(e) => res == Err(e)
  {
    ghost var whole := TakeAll(take, cur.Rest(), count);
    ghost var done: seq<T> := [];
    Begin(take, cur.Rest(), count);
    for i := 0 to count
      invariant cur.Valid() && Underway(take, whole, done, cur.Rest(), count - i)
    {
      Advance(take, whole, done, cur.Rest(), count - i);
      var taken := take(cur.bytes[cur.pos..]);
      if taken.Err? {
        return Err(taken.error);
      }
      done := done + [taken.value.0];
      cur.pos := cur.pos + w;
    }
    End(take, whole, done, cur.Rest());
    return Ok(());
  }

  /** `read_record_sequence` on records the first pass accepted: the second pass cannot fail. */
  method ReadRecords<T(!new)>(cur: Cursor, count: nat, take: seq<Byte> -> Taken<T>, w: nat) returns (xs: seq<T>)
    requires cur.Valid() && Width(take, w) && TakeAll(take, cur.Rest(), count).Ok?
    modifies cur
    ensures cur.Valid() && TakeAll(take, old(cur.Rest()), count) == Ok((xs, cur.Rest()))
  {
    ghost var whole := TakeAll(take, cur.Rest(), count);
    Begin(take, cur.Rest(), count);
    xs := [];
    for i := 0 to count
      invariant cur.Valid() && Underway(take, whole, xs, cur.Rest(), count - i)
    {
      Advance(take, whole, xs, cur.Rest(), count - i);
      var taken := take(cur.bytes[cur.pos..]);
      xs := xs + [taken.value.0];
      cur.pos := cur.pos + w;
    }
    End(take, whole, xs, cur.Rest());
  }

  /** `MetadataMaterializationBudget`. */
  class Budget {
    const limit: U64
    var charged: U64

    ghost predicate Valid()
      reads this
    {
      charged <= limit
    }

    constructor (limit: U64)
      ensures Valid() && this.limit == limit && charged == 0
    {
      this.limit := limit;
      charged := 0;
    }

    function Remaining(): (r: U64)
      requires Valid()
      reads this
      ensures charged + r == limit
    {
      limit - charged
    }

    /** `charge`: all of the bytes, or nothing. */
    method Charge(bytes: U64) returns (res: Result<(), FormatError>)
      requires Valid()
      modifies this
      ensures Valid()
      ensures res == if bytes <= old(Remaining()) then Ok(()) else Err(InvalidInput)
      ensures charged == old(charged) + if res.Ok? then bytes else 0
    {
      if charged + bytes >= U64_LIMIT {
        return Err(InvalidInput);
      }
      if charged + bytes > limit {
        return Err(InvalidInput);
      }
      charged := charged + bytes;
      return Ok(());
    }
  }

  /**
   What a budgeted reader owes: structure decides first; then the exact retained size is
   charged or the object refused; any failure leaves the budget as it was.
   */
  ghost predicate Budgeted<T>(
    spec: Result<T, FormatError>, retained: nat, remaining: nat,
    res: Result<T, FormatError>, charged: int)
  {
    match spec
    case Err(e) => res == Err(e) && charged == 0
    case Ok(x) =>
      if retained <= remaining then res == Ok(x) && charged == retained
      else res == Err(InvalidInput) && charged == 0
  }
}
