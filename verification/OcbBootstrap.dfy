/**
 The dual-slot bootstrap page: a checksum over everything but the two root slots, and
 slots that carry their own.
 */
module OcbBootstrap {
  import opened Basics
  import opened Bytes
  import opened Slices
  import opened Crc32c
  import opened OcbReader
  import opened OcbRecords

  const MAGIC: seq<Byte> := [0x54, 0x49, 0x4F, 0x4F, 0x43, 0x42, 0x32, 0x00]        // "TIOOCB2\0"
  const SLOT_MAGIC: seq<Byte> := [0x4F, 0x43, 0x42, 0x53, 0x4C, 0x54, 0x32, 0x00]   // "OCBSLT2\0"
  const MAJOR: U16 := 2
  const MINOR: U16 := 0
  const ROOT_LEN: U64 := 456

  type PageBytes = b: seq<Byte> | |b| == 4096 witness Zeros(4096)
  type SlotBytes = b: seq<Byte> | |b| == 160 witness Zeros(160)
  type Bytes16 = b: seq<Byte> | |b| == 16 witness Zeros(16)

  // ---------------------------------------------------------------- root slots

  datatype Slot = Slot(
    id: U16, flags: U16, generation: U64, root: BodyRef, previousGeneration: U64, previousRoot: BodyRef,
    diagnostics: BodyRef, committedNanos: U64, writerVersion: Bytes16)

  function TakeSlotHead(b: seq<Byte>): Taken<(U16, U16)> {
    var magic :- Take(b, 8);
    if magic.0 != SLOT_MAGIC then Err(CorruptFile)
    else
      var version :- Take16(magic.1);
      if version.0 != MAJOR then Err(UnsupportedFormat)
      else
        var length :- Take16(version.1);
        if length.0 != 160 then Err(CorruptFile)
        else
          var id :- Take16(length.1);
          if id.0 >= 2 then Err(CorruptFile)
          else
            var flags :- Take16(id.1);
            Ok(((id.0, flags.0), flags.1))
  }

  /** The generation and root of this commit, and of the one before. */
  function TakeRoots(b: seq<Byte>): (r: Taken<(U64, BodyRef, U64, BodyRef)>)
    ensures r.Ok? ==> |b| >= 80 && r.value.1 == b[80..]
  {
    var generation :- Take64(b);
    var root :- TakeBodyRef(generation.1);
    var previousGeneration :- Take64(root.1);
    var previousRoot :- TakeBodyRef(previousGeneration.1);
    Ok(((generation.0, root.0, previousGeneration.0, previousRoot.0), previousRoot.1))
  }

  /** Diagnostics, commit time and writer version. */
  function TakeStamp(b: seq<Byte>): (r: Taken<(BodyRef, U64, Bytes16)>)
    ensures r.Ok? ==> |b| >= 60 && r.value.1 == b[60..]
  {
    var diagnostics :- TakeBodyRef(b);
    var committedNanos :- Take64(diagnostics.1);
    var writerVersion :- Take(committedNanos.1, 16);
    var reserved :- Take32(writerVersion.1);
    Ok(((diagnostics.0, committedNanos.0, writerVersion.0), reserved.1))
  }

  function TakeSlot(b: seq<Byte>): Taken<Slot> {
    var head :- TakeSlotHead(b);
    var roots :- TakeRoots(head.1);
    var stamp :- TakeStamp(roots.1);
    Ok((Slot(head.0.0, head.0.1, roots.0.0, roots.0.1, roots.0.2, roots.0.3, stamp.0.0, stamp.0.1, stamp.0.2), stamp.1))
  }

  /** A slot as read: its fields and the checksum it carried. */
  datatype RootSlot = RootSlot(slot: Slot, crc: U32)

  /** `OcbRootSlotV2::read_from`, over a slot's 160 bytes. */
  function ReadSlot(bytes: SlotBytes): Result<RootSlot, FormatError> {
    var z :- Unseal(bytes);
    var slot :- TakeSlot(z);
    Ok(RootSlot(slot.0, Trailer(bytes)))
  }

  /** What the slot writer accepts. */
  predicate SlotOk(s: Slot) {
    && s.id < 2
    && (s.root.IsNull() || (s.root.kind == ROOT && s.root.length == ROOT_LEN))
    && (s.previousRoot.IsNull() || s.previousRoot.kind == ROOT)
    && (s.diagnostics.IsNull() || s.diagnostics.kind == 9 || s.diagnostics.kind == 12)
  }

  function PutSlotHead(s: Slot, t: seq<Byte>): seq<Byte> {
    SLOT_MAGIC + (Put16(MAJOR) + (Put16(160) + (Put16(s.id) + (Put16(s.flags) + t))))
  }

  function PutSlotTail(s: Slot, t: seq<Byte>): seq<Byte> {
    PutBodyRef(s.diagnostics, Put64(s.committedNanos) + (s.writerVersion + (Put32(0) + t)))
  }

  function PutSlot(s: Slot, t: seq<Byte>): seq<Byte> {
    PutSlotHead(s, Put64(s.generation) + PutBodyRef(s.root,
      Put64(s.previousGeneration) + PutBodyRef(s.previousRoot, PutSlotTail(s, t))))
  }

  lemma BodyRefLength(r: BodyRef, t: seq<Byte>)
    ensures |PutBodyRef(r, t)| == 32 + |t|
  {
  }

  lemma SlotLength(s: Slot, t: seq<Byte>)
    ensures |PutSlot(s, t)| == 156 + |t|
  {
    var e := Put64(s.committedNanos) + (s.writerVersion + (Put32(0) + t));
    BodyRefLength(s.diagnostics, e);
    BodyRefLength(s.previousRoot, PutSlotTail(s, t));
    BodyRefLength(s.root, Put64(s.previousGeneration) + PutBodyRef(s.previousRoot, PutSlotTail(s, t)));
  }

  /** `to_bytes`: the slot sealed by its own checksum. */
  function WriteSlot(s: Slot): Result<SlotBytes, FormatError> {
    SlotLength(s, []);
    if SlotOk(s) then Ok(Seal(PutSlot(s, []))) else Err(InvalidInput)
  }

  lemma SlotHeadRead(s: Slot, t: seq<Byte>)
    requires s.id < 2
    ensures TakeSlotHead(PutSlotHead(s, t)) == Ok(((s.id, s.flags), t))
  {
    TakeFront(SLOT_MAGIC, Put16(MAJOR) + (Put16(160) + (Put16(s.id) + (Put16(s.flags) + t))));
    TakePut16(MAJOR, Put16(160) + (Put16(s.id) + (Put16(s.flags) + t)));
    TakePut16(160, Put16(s.id) + (Put16(s.flags) + t));
    TakePut16(s.id, Put16(s.flags) + t);
    TakePut16(s.flags, t);
  }

  lemma RootsRead(s: Slot, t: seq<Byte>)
    ensures TakeRoots(Put64(s.generation) + PutBodyRef(s.root, Put64(s.previousGeneration) + PutBodyRef(s.previousRoot, t)))
         == Ok(((s.generation, s.root, s.previousGeneration, s.previousRoot), t))
  {
    var c := Put64(s.previousGeneration) + PutBodyRef(s.previousRoot, t);
    TakePut64(s.generation, PutBodyRef(s.root, c));
    BodyRefRead(s.root, c);
    TakePut64(s.previousGeneration, PutBodyRef(s.previousRoot, t));
    BodyRefRead(s.previousRoot, t);
  }

  lemma StampRead(s: Slot, t: seq<Byte>)
    ensures TakeStamp(PutSlotTail(s, t)) == Ok(((s.diagnostics, s.committedNanos, s.writerVersion), t))
  {
    BodyRefRead(s.diagnostics, Put64(s.committedNanos) + (s.writerVersion + (Put32(0) + t)));
    TakePut64(s.committedNanos, s.writerVersion + (Put32(0) + t));
    TakeFront(s.writerVersion, Put32(0) + t);
    TakePut32(0, t);
  }

  lemma SlotRead(s: Slot, t: seq<Byte>)
    requires s.id < 2
    ensures TakeSlot(PutSlot(s, t)) == Ok((s, t))
  {
    var c := Put64(s.previousGeneration) + PutBodyRef(s.previousRoot, PutSlotTail(s, t));
    SlotHeadRead(s, Put64(s.generation) + PutBodyRef(s.root, c));
    RootsRead(s, PutSlotTail(s, t));
    StampRead(s, t);
  }

  lemma SlotExtends(s: Slot, t: seq<Byte>, u: seq<Byte>)
    ensures PutSlot(s, t) + u == PutSlot(s, t + u)
  {
    var e := s.writerVersion + (Put32(0) + t);
    Regroup(Put32(0), t, u);
    Regroup(s.writerVersion, Put32(0) + t, u);
    Regroup(Put64(s.committedNanos), e, u);
    BodyRefExtends(s.diagnostics, Put64(s.committedNanos) + e, u);
    BodyRefExtends(s.previousRoot, PutSlotTail(s, t), u);
    var d := PutBodyRef(s.previousRoot, PutSlotTail(s, t));
    Regroup(Put64(s.previousGeneration), d, u);
    BodyRefExtends(s.root, Put64(s.previousGeneration) + d, u);
    var b := PutBodyRef(s.root, Put64(s.previousGeneration) + d);
    Regroup(Put64(s.generation), b, u);
    Join4(Put16(MAJOR), Put16(160), Put16(s.id), Put16(s.flags), Put64(s.generation) + b, u);
    Regroup(SLOT_MAGIC, Put16(MAJOR) + (Put16(160) + (Put16(s.id) + (Put16(s.flags) + (Put64(s.generation) + b)))), u);
  }

  /** A written slot reads back. */
  lemma SlotRoundTrip(s: Slot)
    requires SlotOk(s)
    ensures WriteSlot(s).Ok?
    ensures ReadSlot(WriteSlot(s).value) == Ok(RootSlot(s, Checksum(PutSlot(s, []) + Zeros(4))))
  {
    SealOpens(PutSlot(s, []));
    SlotExtends(s, [], Zeros(4));
    assert [] + Zeros(4) == Zeros(4);
    SlotRead(s, Zeros(4));
  }

  // ---------------------------------------------------------------- the page

  datatype Fields = Fields(major: U16, minor: U16, flags: U32, pageSize: U32, uuid: Bytes16)

  datatype Page = Page(fields: Fields, slots: seq<SlotBytes>, crc: U32)

  const TABLE: nat := 64
  const TABLE_END: nat := 384

  /** The page as checksummed: both slots and the trailer zeroed. */
  function Stable(page: PageBytes): PageBytes {
    page[..TABLE] + Zeros(320) + page[TABLE_END..4092] + Zeros(4)
  }

  function SlotAt(page: PageBytes, k: nat): SlotBytes
    requires k < 2
  {
    page[TABLE + 160 * k..TABLE + 160 * k + 160]
  }

  function TakeFields(b: seq<Byte>): Result<Fields, FormatError> {
    var magic :- Take(b, 8);
    if magic.0 != MAGIC then Err(CorruptFile)
    else
      var major :- Take16(magic.1);
      var minor :- Take16(major.1);
      if major.0 != MAJOR || minor.0 > MINOR then Err(UnsupportedFormat)
      else
        var flags :- Take32(minor.1);
        var pageSize :- Take32(flags.1);
        if pageSize.0 != 4096 then Err(CorruptFile)
        else
          var uuid :- Take(pageSize.1, 16);
          Ok(Fields(major.0, minor.0, flags.0, pageSize.0, uuid.0))
  }

  /** `OcbBootstrapPageV2::read_from`, over a full page. */
  function ReadPage(page: PageBytes): Result<Page, FormatError> {
    PageFrom(PageFields(page), SlotAt(page, 0), SlotAt(page, 1), Get32(page[4092..]))
  }

  function PageFields(page: PageBytes): Result<Fields, FormatError> {
    ReadFields(Stable(page), page[..TABLE], Get32(page[4092..]))
  }

  function PageFrom(fields: Result<Fields, FormatError>, s0: SlotBytes, s1: SlotBytes, crc: U32): Result<Page, FormatError> {
    match fields
    case Err(e) => Err(e)
    case Ok(f) => Ok(Page(f, [s0, s1], crc))
  }

  /** Read alike but for slot `k`. */
  ghost predicate Alike(x: Result<Page, FormatError>, y: Result<Page, FormatError>, k: nat) {
    match (x, y)
    case (Err(d), Err(e)) => d == e
    case (Ok(p), Ok(q)) =>
      && q.fields == p.fields && q.crc == p.crc
      && k < 2 && |p.slots| == |q.slots| == 2 && q.slots[1 - k] == p.slots[1 - k]
    case _ => false
  }

  lemma PagesAlike(fields: Result<Fields, FormatError>, a0: SlotBytes, a1: SlotBytes, b0: SlotBytes, b1: SlotBytes, crc: U32, k: nat)
    requires k < 2 && (if k == 0 then a1 == b1 else a0 == b0)
    ensures Alike(PageFrom(fields, a0, a1, crc), PageFrom(fields, b0, b1, crc), k)
  {
  }

  function ReadFields(stable: PageBytes, head: seq<Byte>, trailer: U32): Result<Fields, FormatError> {
    if trailer != Checksum(stable) then Err(CorruptFile) else TakeFields(head)
  }

  // ---------------------------------------------------------------- isolation

  /** The pages agree outside the bytes `i..j`. */
  ghost predicate AgreeOutside(a: PageBytes, b: PageBytes, i: nat, j: nat)
    requires i <= j <= 4096
  {
    a[..i] == b[..i] && a[j..] == b[j..]
  }

  lemma StableIgnoresSlots(a: PageBytes, b: PageBytes, k: nat)
    requires k < 2 && AgreeOutside(a, b, TABLE + 160 * k, TABLE + 160 * k + 160)
    ensures Stable(a) == Stable(b) && a[..TABLE] == b[..TABLE] && a[4092..] == b[4092..]
    ensures SlotAt(a, 1 - k) == SlotAt(b, 1 - k)
  {
    var i, j := TABLE + 160 * k, TABLE + 160 * k + 160;
    assert a[..TABLE] == a[..i][..TABLE] && b[..TABLE] == b[..i][..TABLE];
    assert a[TABLE_END..4092] == a[j..][TABLE_END - j..4092 - j] && b[TABLE_END..4092] == b[j..][TABLE_END - j..4092 - j];
    assert a[4092..] == a[j..][4092 - j..] && b[4092..] == b[j..][4092 - j..];
    if k == 0 {
      assert SlotAt(a, 1) == a[j..][..160] && SlotAt(b, 1) == b[j..][..160];
    } else {
      assert SlotAt(a, 0) == a[..i][TABLE..] && SlotAt(b, 0) == b[..i][TABLE..];
    }
  }

  /**
   Whatever happens to one slot's bytes, the page is accepted or refused as before, with
   the same fields and the same bytes for the sibling slot.
   */
  lemma SlotIsolation(a: PageBytes, b: PageBytes, k: nat)
    requires k < 2 && AgreeOutside(a, b, TABLE + 160 * k, TABLE + 160 * k + 160)
    ensures Alike(ReadPage(a), ReadPage(b), k)
  {
    StableIgnoresSlots(a, b, k);
    SamePage(a, b, k);
  }

  lemma SamePage(a: PageBytes, b: PageBytes, k: nat)
    requires k < 2 && Stable(a) == Stable(b) && a[..TABLE] == b[..TABLE] && a[4092..] == b[4092..]
    requires SlotAt(a, 1 - k) == SlotAt(b, 1 - k)
    ensures Alike(ReadPage(a), ReadPage(b), k)
  {
    var fields, crc := PageFields(a), Get32(a[4092..]);
    SameFields(a, b);
    PagesAlike(fields, SlotAt(a, 0), SlotAt(a, 1), SlotAt(b, 0), SlotAt(b, 1), crc, k);
  }

  lemma SameFields(a: PageBytes, b: PageBytes)
    requires Stable(a) == Stable(b) && a[..TABLE] == b[..TABLE] && a[4092..] == b[4092..]
    ensures PageFields(a) == PageFields(b)
  {
  }

  /** A torn write of one slot, however it ends, leaves the sibling a written slot reads back from. */
  lemma TornWriteKeepsSibling(a: PageBytes, b: PageBytes, k: nat, s: Slot)
    requires k < 2 && AgreeOutside(a, b, TABLE + 160 * k, TABLE + 160 * k + 160)
    requires ReadPage(a).Ok? && SlotOk(s) && Ok(ReadPage(a).value.slots[1 - k]) == WriteSlot(s)
    ensures ReadPage(b).Ok? && ReadSlot(ReadPage(b).value.slots[1 - k]).Ok?
    ensures ReadSlot(ReadPage(b).value.slots[1 - k]).value.slot == s
  {
    SlotIsolation(a, b, k);
    SlotRoundTrip(s);
  }

  // ---------------------------------------------------------------- detection

  lemma StableParts(a: PageBytes, k: nat, x: Byte)
    requires k < 4092 && !(TABLE <= k < TABLE_END)
    ensures Stable(a[k := x]) == Stable(a)[k := x] && Stable(a)[k] == a[k] && a[k := x][4092..] == a[4092..]
  {
    var b := a[k := x];
    if k < TABLE {
      assert b[..TABLE] == a[..TABLE][k := x] && b[TABLE_END..4092] == a[TABLE_END..4092];
    } else {
      assert b[..TABLE] == a[..TABLE] && b[TABLE_END..4092] == a[TABLE_END..4092][k - TABLE_END := x];
    }
  }

  lemma OneByteChecksum(s: seq<Byte>, k: nat, x: Byte)
    requires k < |s| && x != s[k]
    ensures Checksum(s[k := x]) != Checksum(s)
  {
    ReplaceSplit(s, k, x);
    if Checksum(s[k := x]) == Checksum(s) {
      ByteBurstDetected(s[..k], [s[k]], [x], s[k + 1..]);
    }
  }

  lemma ReplaceSplit(s: seq<Byte>, k: nat, x: Byte)
    requires k < |s|
    ensures s == s[..k] + [s[k]] + s[k + 1..] && s[k := x] == s[..k] + [x] + s[k + 1..]
  {
  }

  /** Any one changed byte outside the slots, trailer included, makes the page unreadable. */
  lemma HeaderCorruptionRejected(a: PageBytes, k: nat, x: Byte)
    requires ReadPage(a).Ok? && k < 4096 && !(TABLE <= k < TABLE_END) && x != a[k]
    ensures ReadPage(a[k := x]) == Err(CorruptFile)
  {
    var b := a[k := x];
    if k < 4092 {
      StableParts(a, k, x);
      OneByteChecksum(Stable(a), k, x);
    } else {
      assert b[..TABLE] == a[..TABLE] && b[TABLE_END..4092] == a[TABLE_END..4092];
      assert b[4092..][k - 4092] == x && a[4092..][k - 4092] == a[k];
      if Get32(b[4092..]) == Get32(a[4092..]) {
        Get32Injective(b[4092..], a[4092..]);
      }
    }
  }

  // ---------------------------------------------------------------- writing

  /** The first 64 bytes: fields, then padding. */
  function Head(f: Fields): (b: seq<Byte>)
    ensures |b| == 64
  {
    MAGIC + (Put16(f.major) + (Put16(f.minor) + (Put32(f.flags) + (Put32(f.pageSize) + (f.uuid + Zeros(28))))))
  }

  predicate FieldsOk(f: Fields) { f.major == MAJOR && f.minor <= MINOR && f.pageSize == 4096 }

  lemma HeadRead(f: Fields)
    requires FieldsOk(f)
    ensures TakeFields(Head(f)) == Ok(f)
  {
    var c := f.uuid + Zeros(28);
    var b := Put32(f.flags) + (Put32(f.pageSize) + c);
    TakeFront(MAGIC, Put16(f.major) + (Put16(f.minor) + b));
    TakePut16(f.major, Put16(f.minor) + b);
    TakePut16(f.minor, b);
    TakePut32(f.flags, Put32(f.pageSize) + c);
    TakePut32(f.pageSize, c);
    TakeFront(f.uuid, Zeros(28));
  }

  function PageOf(head: seq<Byte>, s0: SlotBytes, s1: SlotBytes, trailer: seq<Byte>): PageBytes
    requires |head| == 64 && |trailer| == 4
  {
    head + s0 + s1 + Zeros(3708) + trailer
  }

  lemma PageParts(head: seq<Byte>, s0: SlotBytes, s1: SlotBytes, trailer: seq<Byte>)
    requires |head| == 64 && |trailer| == 4
    ensures var page := PageOf(head, s0, s1, trailer);
            && page[..TABLE] == head && SlotAt(page, 0) == s0 && SlotAt(page, 1) == s1
            && page[TABLE_END..4092] == Zeros(3708) && page[4092..] == trailer
  {
    var page := PageOf(head, s0, s1, trailer);
    Parts4(head, s0, s1, Zeros(3708));
    var front := head + s0 + s1 + Zeros(3708);
    assert page == front + trailer;
    assert page[..TABLE] == front[0..64] && page[64..224] == front[64..224] && page[224..384] == front[224..384];
    assert page[384..4092] == front[384..4092];
  }

  /** `write_to`: refuse bad fields, else seal the page around its slots. */
  function WritePage(f: Fields, s0: SlotBytes, s1: SlotBytes): Result<PageBytes, FormatError> {
    if f.pageSize != 4096 then Err(InvalidInput)
    else if !FieldsOk(f) then Err(UnsupportedFormat)
    else Ok(PageOf(Head(f), s0, s1, Put32(Checksum(Stable(PageOf(Head(f), s0, s1, Zeros(4)))))))
  }

  /** A written page reads back with its fields and both slots. */
  lemma PageRoundTrip(f: Fields, s0: SlotBytes, s1: SlotBytes)
    requires FieldsOk(f)
    ensures WritePage(f, s0, s1).Ok?
    ensures ReadPage(WritePage(f, s0, s1).value).Ok?
    ensures var page := ReadPage(WritePage(f, s0, s1).value).value;
            page.fields == f && page.slots == [s0, s1]
  {
    var blank := PageOf(Head(f), s0, s1, Zeros(4));
    var sum := Checksum(Stable(blank));
    PageParts(Head(f), s0, s1, Zeros(4));
    PageParts(Head(f), s0, s1, Put32(sum));
    GetPut32(sum);
    HeadRead(f);
  }

  /** `bootstrap_crc32c`: a copy with its slots and trailer zeroed in place, then checksummed. */
  method StableChecksum(page: seq<Byte>) returns (res: Result<U32, FormatError>)
    ensures |page| != 4096 ==> res == Err(CorruptFile)
    ensures |page| == 4096 ==> res == Ok(Checksum(Stable(page)))
  {
    if |page| != 4096 {
      return Err(CorruptFile);
    }
    var stable := new Byte[4096](i requires 0 <= i < 4096 => page[i]);
    for k := TABLE to TABLE_END
      invariant forall i :: 0 <= i < 4096 ==> stable[i] == if TABLE <= i < k then 0 else page[i]
    {
      stable[k] := 0;
    }
    for k := 4092 to 4096
      invariant forall i :: 0 <= i < 4096 ==>
                  stable[i] == if TABLE <= i < TABLE_END || 4092 <= i < k then 0 else page[i]
    {
      stable[k] := 0;
    }
    assert stable[..] == Stable(page);
    return Ok(Checksum(stable[..]));
  }
}
