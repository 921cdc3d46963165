/** The reusable buffer pool: what building it allocates, and the preflight that bounds it. */
module PoolPreflight {
  import opened Basics
  import opened Bytes

  datatype PoolError = CorruptFile | InvalidInput

  datatype ColumnType = OfI32 | OfI64 | OfF32 | OfF64 | FixedBinary(width: U32)

  // ---------------------------------------------------------------- what is allocated

  /** Value storage; float vectors hold bits. */
  datatype Values =
    | I32s(i32s: seq<I32>)
    | I64s(i64s: seq<I64>)
    | F32s(f32s: seq<U32>)
    | F64s(f64s: seq<U64>)
    | FixedBytes(width: U32, bytes: seq<Byte>)
  {
    function ByteLen(): nat {
      match this
      case I32s(v) => 4 * |v|
      case I64s(v) => 8 * |v|
      case F32s(v) => 4 * |v|
      case F64s(v) => 8 * |v|
      case FixedBytes(_, b) => |b|
    }
  }

  datatype ColumnBuffer = ColumnBuffer(values: Values, validity: seq<Byte>) {
    function ByteLen(): nat { values.ByteLen() + |validity| }
  }

  type SlotBuffers = seq<ColumnBuffer>

  function CeilDiv8(n: nat): nat { (n + 7) / 8 }

  /** `ReusablePrimitiveColumnValues::new` then `resize_for_rows`. */
  function ValuesFor(t: ColumnType, rows: nat): Result<Values, PoolError> {
    match t
    case OfI32 => Ok(I32s(seq(rows, _ => 0)))
    case OfI64 => Ok(I64s(seq(rows, _ => 0)))
    case OfF32 => Ok(F32s(seq(rows, _ => 0)))
    case OfF64 => Ok(F64s(seq(rows, _ => 0)))
    case FixedBinary(width) =>
      if width == 0 || rows * width >= U64_LIMIT then Err(InvalidInput)
      else Ok(FixedBytes(width, Zeros(rows * width)))
  }

  function BufferFor(t: ColumnType, rows: nat, allowNulls: bool): Result<ColumnBuffer, PoolError> {
    var values :- ValuesFor(t, rows);
    Ok(ColumnBuffer(values, Zeros(if allowNulls then CeilDiv8(rows) else 0)))
  }

  function SlotBytes(slot: SlotBuffers): nat {
    if slot == [] then 0 else SlotBytes(slot[..|slot| - 1]) + slot[|slot| - 1].ByteLen()
  }

  function PoolBytes(pool: seq<SlotBuffers>): nat {
    if pool == [] then 0 else PoolBytes(pool[..|pool| - 1]) + SlotBytes(pool[|pool| - 1])
  }

  /** `for_columns`: one slot, column by column. */
  method BuildSlot(columns: seq<ColumnType>, rows: nat, allowNulls: bool) returns (res: Result<SlotBuffers, PoolError>)
    ensures res == Collect(Buffers(columns, rows, allowNulls))
  {
    var slot: SlotBuffers := [];
    for i := 0 to |columns|
      invariant Collect(Buffers(columns[..i], rows, allowNulls)) == Ok(slot)
    {
      BuffersPrefix(columns, rows, allowNulls, i);
      var buffer := BufferFor(columns[i], rows, allowNulls);
      if buffer.Err? {
        return Err(buffer.error);
      }
      slot := slot + [buffer.value];
    }
    assert columns[..|columns|] == columns;
    return Ok(slot);
  }

  function Buffers(columns: seq<ColumnType>, rows: nat, allowNulls: bool): (rs: seq<Result<ColumnBuffer, PoolError>>)
    ensures |rs| == |columns|
  {
    seq(|columns|, i requires 0 <= i < |columns| => BufferFor(columns[i], rows, allowNulls))
  }

  lemma BuffersPrefix(columns: seq<ColumnType>, rows: nat, allowNulls: bool, i: nat)
    requires i < |columns|
    ensures Buffers(columns[..i + 1], rows, allowNulls) == Buffers(columns[..i], rows, allowNulls) + [BufferFor(columns[i], rows, allowNulls)]
    ensures Collect(Buffers(columns[..i + 1], rows, allowNulls)).Err? ==>
              Collect(Buffers(columns, rows, allowNulls)) == Err(Collect(Buffers(columns[..i + 1], rows, allowNulls)).error)
  {
    var all := Buffers(columns, rows, allowNulls);
    assert all[..i + 1] == Buffers(columns[..i + 1], rows, allowNulls);
    CollectPrefix(all, i + 1);
  }

  // ---------------------------------------------------------------- the preflight

  /** Bytes one column of a slot takes. */
  function ColumnBytes(t: ColumnType, rows: nat, allowNulls: bool): nat {
    rows * Width(t) + if allowNulls then CeilDiv8(rows) else 0
  }

  function Width(t: ColumnType): nat {
    match t
    case OfI32 => 4
    case OfF32 => 4
    case OfI64 => 8
    case OfF64 => 8
    case FixedBinary(width) => width
  }

  function Accounted(columns: seq<ColumnType>, rows: nat, allowNulls: bool): nat {
    if columns == [] then 0
    else Accounted(columns[..|columns| - 1], rows, allowNulls) + ColumnBytes(columns[|columns| - 1], rows, allowNulls)
  }

  predicate HasWidth(t: ColumnType) { Width(t) > 0 }

  lemma {:induction false} AccountedGrows(columns: seq<ColumnType>, rows: nat, allowNulls: bool, k: nat)
    requires k <= |columns|
    ensures Accounted(columns[..k], rows, allowNulls) <= Accounted(columns, rows, allowNulls)
    decreases |columns|
  {
    if k < |columns| {
      assert columns[..|columns| - 1][..k] == columns[..k];
      AccountedGrows(columns[..|columns| - 1], rows, allowNulls, k);
    } else {
      assert columns[..k] == columns;
    }
  }

  /** One column added with checked 64-bit arithmetic. */
  method AddColumn(slotBytes: U64, t: ColumnType, rows: U64, allowNulls: bool) returns (res: Result<U64, PoolError>)
    ensures res == if !HasWidth(t) then Err(CorruptFile)
                   else if slotBytes + ColumnBytes(t, rows, allowNulls) >= U64_LIMIT then Err(InvalidInput)
                   else Ok(slotBytes + ColumnBytes(t, rows, allowNulls))
  {
    var width := Width(t);
    if width == 0 {
      return Err(CorruptFile);
    }
    var bytes := rows * width;
    if bytes >= U64_LIMIT || slotBytes + bytes >= U64_LIMIT {
      return Err(InvalidInput);
    }
    if !allowNulls {
      return Ok(slotBytes + bytes);
    }
    if slotBytes + bytes + CeilDiv8(rows) >= U64_LIMIT {
      return Err(InvalidInput);
    }
    return Ok(slotBytes + bytes + CeilDiv8(rows));
  }

  /** All columns of one slot, or the first failure. */
  method AddColumns(columns: seq<ColumnType>, rows: U64, allowNulls: bool) returns (res: Result<U64, PoolError>)
    ensures res.Ok? <==>
            (forall i :: 0 <= i < |columns| ==> HasWidth(columns[i])) && Accounted(columns, rows, allowNulls) < U64_LIMIT
    ensures res.Ok? ==> res.value == Accounted(columns, rows, allowNulls)
    ensures res == Err(CorruptFile) ==> exists i :: 0 <= i < |columns| && !HasWidth(columns[i])
  {
    var slotBytes: U64 := 0;
    for i := 0 to |columns|
      invariant forall k :: 0 <= k < i ==> HasWidth(columns[k])
      invariant slotBytes == Accounted(columns[..i], rows, allowNulls)
    {
      assert columns[..i + 1][..i] == columns[..i];
      AccountedGrows(columns, rows, allowNulls, i + 1);
      var step := AddColumn(slotBytes, columns[i], rows, allowNulls);
      if step.Err? {
        return step;
      }
      slotBytes := step.value;
    }
    assert columns[..|columns|] == columns;
    return Ok(slotBytes);
  }

  /** Every column has a width and the true sizes are within both limits. */
  ghost predicate Accepted(columns: seq<ColumnType>, rows: nat, slots: nat, allowNulls: bool, slotLimit: U64, poolLimit: U64) {
    && (forall i :: 0 <= i < |columns| ==> HasWidth(columns[i]))
    && Accounted(columns, rows, allowNulls) <= slotLimit
    && Accounted(columns, rows, allowNulls) * slots <= poolLimit
  }

  /**
   `validate_reusable_pool_allocation_resource_limits`: the checked accounting accepts
   exactly what unbounded arithmetic would.
   */
  method Preflight(columns: seq<ColumnType>, rows: U64, slots: U64, allowNulls: bool, slotLimit: U64, poolLimit: U64)
    returns (res: Result<(), PoolError>)
    ensures res.Ok? <==> Accepted(columns, rows, slots, allowNulls, slotLimit, poolLimit)
    ensures res == Err(CorruptFile) ==> exists i :: 0 <= i < |columns| && !HasWidth(columns[i])
  {
    var slotBytes := AddColumns(columns, rows, allowNulls);
    if slotBytes.Err? {
      return Err(slotBytes.error);
    }
    if slotBytes.value > slotLimit {
      return Err(InvalidInput);
    }
    var total := slotBytes.value * slots;
    if total >= U64_LIMIT {
      return Err(InvalidInput);
    }
    if total > poolLimit {
      return Err(InvalidInput);
    }
    return Ok(());
  }

  // ---------------------------------------------------------------- exactness

  /** The fewest bytes with a bit for each of `n` rows. */
  lemma BitmapLength(n: nat)
    ensures n <= 8 * CeilDiv8(n) < n + 8
  {
  }

  /** A buffer for `rows` values of the column's own type, all zero, and a bit for each when nulls are allowed. */
  ghost predicate Holds(buffer: ColumnBuffer, t: ColumnType, rows: nat, allowNulls: bool) {
    && (match t
        case OfI32 => buffer.values.I32s? && |buffer.values.i32s| == rows && forall i :: 0 <= i < rows ==> buffer.values.i32s[i] == 0
        case OfI64 => buffer.values.I64s? && |buffer.values.i64s| == rows && forall i :: 0 <= i < rows ==> buffer.values.i64s[i] == 0
        case OfF32 => buffer.values.F32s? && |buffer.values.f32s| == rows && forall i :: 0 <= i < rows ==> buffer.values.f32s[i] == 0
        case OfF64 => buffer.values.F64s? && |buffer.values.f64s| == rows && forall i :: 0 <= i < rows ==> buffer.values.f64s[i] == 0
        case FixedBinary(width) =>
          && buffer.values.FixedBytes? && buffer.values.width == width > 0 && |buffer.values.bytes| == rows * width
          && forall i :: 0 <= i < rows * width ==> buffer.values.bytes[i] == 0)
    && (if allowNulls then rows <= 8 * |buffer.validity| < rows + 8 else buffer.validity == [])
    && forall i :: 0 <= i < |buffer.validity| ==> buffer.validity[i] == 0
  }

  /** A column's buffer takes exactly its accounted bytes. */
  lemma BufferExact(t: ColumnType, rows: nat, allowNulls: bool)
    ensures BufferFor(t, rows, allowNulls).Ok? ==> BufferFor(t, rows, allowNulls).value.ByteLen() == ColumnBytes(t, rows, allowNulls)
    ensures HasWidth(t) && ColumnBytes(t, rows, allowNulls) < U64_LIMIT ==> BufferFor(t, rows, allowNulls).Ok?
  {
  }

  /** It holds the rows in the column's type, and is built exactly when a fixed width is positive and its bytes fit. */
  lemma BufferHolds(t: ColumnType, rows: nat, allowNulls: bool)
    ensures var r := BufferFor(t, rows, allowNulls);
            && (r.Ok? ==> Holds(r.value, t, rows, allowNulls))
            && (r.Ok? <==> t.FixedBinary? ==> t.width > 0 && rows * t.width < U64_LIMIT)
  {
    BitmapLength(rows);
  }

  /** One buffer for each column, in order. */
  ghost predicate SlotHolds(slot: SlotBuffers, columns: seq<ColumnType>, rows: nat, allowNulls: bool) {
    |slot| == |columns| && forall i :: 0 <= i < |columns| ==> Holds(slot[i], columns[i], rows, allowNulls)
  }

  /** A built slot takes exactly the accounted bytes. */
  lemma {:induction false} SlotExact(columns: seq<ColumnType>, rows: nat, allowNulls: bool)
    requires forall i :: 0 <= i < |columns| ==> HasWidth(columns[i])
    requires Accounted(columns, rows, allowNulls) < U64_LIMIT
    ensures Collect(Buffers(columns, rows, allowNulls)).Ok?
    ensures SlotBytes(Collect(Buffers(columns, rows, allowNulls)).value) == Accounted(columns, rows, allowNulls)
  {
    if columns != [] {
      var n := |columns| - 1;
      SlotExact(columns[..n], rows, allowNulls);
      BufferExact(columns[n], rows, allowNulls);
      assert Buffers(columns, rows, allowNulls)[..n] == Buffers(columns[..n], rows, allowNulls);
      SlotBytesSnoc(Collect(Buffers(columns[..n], rows, allowNulls)).value, BufferFor(columns[n], rows, allowNulls).value);
    }
  }

  /** A built slot holds every column. */
  lemma SlotHoldsColumns(columns: seq<ColumnType>, rows: nat, allowNulls: bool)
    requires Collect(Buffers(columns, rows, allowNulls)).Ok?
    ensures SlotHolds(Collect(Buffers(columns, rows, allowNulls)).value, columns, rows, allowNulls)
  {
    var rs := Buffers(columns, rows, allowNulls);
    CollectIff(rs);
    forall i | 0 <= i < |columns| ensures Holds(Collect(rs).value[i], columns[i], rows, allowNulls) {
      BufferHolds(columns[i], rows, allowNulls);
    }
  }

  lemma SlotBytesSnoc(slot: SlotBuffers, buffer: ColumnBuffer)
    ensures SlotBytes(slot + [buffer]) == SlotBytes(slot) + buffer.ByteLen()
  {
    assert (slot + [buffer])[..|slot|] == slot;
  }

  /** `reusable_buffer_pool_for_plan` from the preflight on. */
  method BuildPool(columns: seq<ColumnType>, rows: U64, slots: U64, allowNulls: bool, slotLimit: U64, poolLimit: U64)
    returns (res: Result<seq<SlotBuffers>, PoolError>)
    ensures res.Ok? <==> Accepted(columns, rows, slots, allowNulls, slotLimit, poolLimit)
    ensures res.Ok? ==>
              && |res.value| == slots && PoolBytes(res.value) == Accounted(columns, rows, allowNulls) * slots <= poolLimit
              && (forall k :: 0 <= k < slots ==> SlotBytes(res.value[k]) == Accounted(columns, rows, allowNulls) <= slotLimit)
              && forall k :: 0 <= k < slots ==> SlotHolds(res.value[k], columns, rows, allowNulls)
  {
    var fits := Preflight(columns, rows, slots, allowNulls, slotLimit, poolLimit);
    if fits.Err? {
      return Err(fits.error);
    }
    SlotExact(columns, rows, allowNulls);
    SlotHoldsColumns(columns, rows, allowNulls);
    ghost var each := Accounted(columns, rows, allowNulls);
    var pool: seq<SlotBuffers> := [];
    for k := 0 to slots
      invariant |pool| == k && PoolBytes(pool) == each * k
      invariant forall j :: 0 <= j < k ==> SlotBytes(pool[j]) == each && SlotHolds(pool[j], columns, rows, allowNulls)
    {
      var slot := BuildSlot(columns, rows, allowNulls);
      assert (pool + [slot.value])[..k] == pool;
      assert each * (k + 1) == each * k + each;
      pool := pool + [slot.value];
    }
    return Ok(pool);
  }
}
