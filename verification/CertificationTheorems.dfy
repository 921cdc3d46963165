/**
 Both certifiers applied to the same payloads: one layout holds them as fixed-binary
 records, the other as lanes.
 */
module CertificationTheorems {
  import opened Basics
  import opened Bytes
  import opened Slices
  import opened CompactL2
  import opened CompactL2Batch
  import opened ContinuityScan
  import opened PayloadScan
  import opened Fnv
  import opened Certification
  import opened FileCertification
  import PC = PayloadColumns

  type PayloadRecord = seq<Byte>

  /** The header decoder over a list of records. */
  function Decodes(bs: seq<PayloadRecord>): (ds: seq<Decoded>)
    ensures |ds| == |bs|
  {
    seq(|bs|, i requires 0 <= i < |bs| => DecodeHeader(bs[i]))
  }

  lemma DecodesAppend(a: seq<PayloadRecord>, b: seq<PayloadRecord>)
    ensures Decodes(a + b) == Decodes(a) + Decodes(b)
  {
  }

  lemma SplittableDecodes(bs: seq<PayloadRecord>)
    requires Splittable(bs)
    ensures DaysFit(Decodes(bs))
  {
    forall i | 0 <= i < |bs| ensures Decodes(bs)[i].Ok? && Decodes(bs)[i].value.tradingDay < 0x8000_0000 {
      assert FromV1(bs[i]).Ok? && FitsLanes(FromV1(bs[i]).value);
    }
  }

  lemma SplittableAppend(a: seq<PayloadRecord>, b: seq<PayloadRecord>)
    requires Splittable(a) && Splittable(b)
    ensures Splittable(a + b)
  {
  }

  // ---------------------------------------------------------------- v2 over split payloads

  /** The lanes a group of payloads splits into. */
  ghost function View(bs: seq<PayloadRecord>): (v: BatchView)
    requires Splittable(bs)
    ensures LanesValid(v) && v.rowCount == |bs|
  {
    LanesOfRecords(Records(bs))
  }

  ghost predicate AllSplittable(bss: seq<seq<PayloadRecord>>) { forall i :: 0 <= i < |bss| ==> Splittable(bss[i]) }

  ghost function Views(bss: seq<seq<PayloadRecord>>): (vs: seq<BatchView>)
    requires AllSplittable(bss)
    ensures |vs| == |bss| && forall i :: 0 <= i < |bss| ==> vs[i] == View(bss[i])
  {
    seq(|bss|, i requires 0 <= i < |bss| => View(bss[i]))
  }

  lemma ViewRow(bs: seq<PayloadRecord>, i: nat)
    requires Splittable(bs) && i < |bs|
    ensures Decodes(bs)[i].Ok? && RowsOf(View(bs))[i] == LaneRow(Decodes(bs)[i].value)
  {
    assert FromV1(bs[i]).Ok? && FitsLanes(FromV1(bs[i]).value);
    assert Records(bs)[i] == LanesOf(bs[i]);
  }

  lemma ViewRows(bs: seq<PayloadRecord>)
    requires Splittable(bs)
    ensures DaysFit(Decodes(bs)) && RowsOf(View(bs)) == LaneRows(Decodes(bs))
  {
    SplittableDecodes(bs);
    forall i | 0 <= i < |bs| ensures RowsOf(View(bs))[i] == LaneRows(Decodes(bs))[i] {
      ViewRow(bs, i);
    }
  }

  lemma {:induction false} FlattenSplittable(bss: seq<seq<PayloadRecord>>)
    requires AllSplittable(bss)
    ensures Splittable(Flatten(bss))
  {
    if bss != [] {
      var n := |bss| - 1;
      FlattenSplittable(bss[..n]);
      SplittableAppend(Flatten(bss[..n]), bss[n]);
    }
  }

  lemma LaneRowsAppend(a: seq<Decoded>, b: seq<Decoded>)
    requires DaysFit(a) && DaysFit(b)
    ensures DaysFit(a + b) && LaneRows(a + b) == LaneRows(a) + LaneRows(b)
  {
  }

  /** What the v2 certifier makes of a payload stream, whatever its row groups. */
  ghost function StreamOutcome(o: V2Options, bs: seq<PayloadRecord>): Result<Progress, ScanError>
    requires DaysFit(Decodes(bs))
  {
    var scan :- StreamScan(o, bs);
    Ok(Progress(scan, Hash(Flatten(bs))))
  }

  /** The scan of all rows, or their count when they are not examined. */
  ghost function StreamScan(o: V2Options, bs: seq<PayloadRecord>): Result<LaneState, ScanError>
    requires DaysFit(Decodes(bs))
  {
    if o.continuity then ScanRows(o.expected, FRESH, LaneRows(Decodes(bs))) else CountRows(FRESH, |bs|)
  }

  lemma {:induction false} ScannedExtends(o: Expect, front: seq<PayloadRecord>, bs: seq<PayloadRecord>)
    requires Splittable(bs) && DaysFit(Decodes(front)) && DaysFit(Decodes(front + bs))
    ensures ScanRows(o, FRESH, LaneRows(Decodes(front + bs))) ==
            match ScanRows(o, FRESH, LaneRows(Decodes(front))) case Ok(s) => ScanView(o, s, View(bs)) case Err(e) => Err(e)
  {
    ViewRows(bs);
    DecodesAppend(front, bs);
    LaneRowsAppend(Decodes(front), Decodes(bs));
    ScanAppend(o, FRESH, LaneRows(Decodes(front)), LaneRows(Decodes(bs)));
  }

  lemma CountedExtends(n: nat, m: nat)
    ensures CountRows(FRESH, n).Ok? ==> CountRows(FRESH, n + m) == CountRows(CountRows(FRESH, n).value, m)
    ensures CountRows(FRESH, n).Err? ==> CountRows(FRESH, n + m) == CountRows(FRESH, n)
  {
  }

  lemma StreamScanExtends(o: V2Options, front: seq<PayloadRecord>, bs: seq<PayloadRecord>, v: BatchView)
    requires Splittable(bs) && DaysFit(Decodes(front)) && DaysFit(Decodes(front + bs)) && v == View(bs)
    ensures StreamScan(o, front + bs) ==
            match StreamScan(o, front) case Ok(s) => ScanOrCount(o, s, v) case Err(e) => Err(e)
  {
    if o.continuity {
      ScannedExtends(o.expected, front, bs);
    } else {
      CountedExtends(|front|, |bs|);
    }
  }

  lemma GroupHashed(o: V2Options, h: U64, bs: seq<PayloadRecord>)
    requires Splittable(bs) && o.legacy && WithinLimit(o, View(bs))
    ensures LegacyHash(o, h, View(bs)) == Ok(Fold(h, Flatten(bs)))
  {
    RebuildBatch(bs);
  }

  lemma StreamExtends(o: V2Options, front: seq<PayloadRecord>, bs: seq<PayloadRecord>)
    requires o.legacy && Splittable(bs) && WithinLimit(o, View(bs))
    requires DaysFit(Decodes(front)) && DaysFit(Decodes(front + bs))
    ensures StreamOutcome(o, front + bs) ==
            match StreamOutcome(o, front) case Ok(p) => CertifyView(o, p, View(bs)) case Err(e) => Err(e)
  {
    StreamScanExtends(o, front, bs, View(bs));
    GroupHashed(o, Hash(Flatten(front)), bs);
    FlattenAppend(front, bs);
    FoldAppend(OFFSET_BASIS, Flatten(front), Flatten(bs));
  }

  ghost predicate GroupsWithinLimit(o: V2Options, bss: seq<seq<PayloadRecord>>)
    requires AllSplittable(bss)
  {
    forall i :: 0 <= i < |bss| ==> WithinLimit(o, View(bss[i]))
  }

  lemma PrefixGroups(o: V2Options, bss: seq<seq<PayloadRecord>>, n: nat)
    requires n < |bss| && AllSplittable(bss) && GroupsWithinLimit(o, bss)
    ensures AllSplittable(bss[..n]) && GroupsWithinLimit(o, bss[..n]) && Views(bss)[..n] == Views(bss[..n])
    ensures Splittable(bss[n]) && WithinLimit(o, View(bss[n])) && Views(bss)[n] == View(bss[n])
  {
  }

  lemma {:induction false} StreamCertified(o: V2Options, bss: seq<seq<PayloadRecord>>)
    requires o.legacy && AllSplittable(bss) && GroupsWithinLimit(o, bss)
    ensures DaysFit(Decodes(Flatten(bss)))
    ensures CertifyViews(o, START, Views(bss)) == StreamOutcome(o, Flatten(bss))
  {
    FlattenSplittable(bss);
    SplittableDecodes(Flatten(bss));
    if bss != [] {
      var n := |bss| - 1;
      PrefixGroups(o, bss, n);
      StreamCertified(o, bss[..n]);
      StreamExtends(o, Flatten(bss[..n]), bss[n]);
    }
  }

  /**
   Certifying the lanes of a payload stream depends only on the stream, whether or not
   its rows are examined: the verdict is that of the scan, or of the row count, and an
   accepted stream's legacy hash is the hash of the original bytes, for every cut into
   row groups (and, by the wave loop's contract, every wave size).
   */
  lemma LegacyHashOfStream(o: V2Options, bss: seq<seq<PayloadRecord>>)
    requires o.legacy && AllSplittable(bss) && GroupsWithinLimit(o, bss)
    ensures DaysFit(Decodes(Flatten(bss)))
    ensures CertifyViews(o, START, Views(bss)).Ok? <==> StreamScan(o, Flatten(bss)).Ok?
    ensures CertifyViews(o, START, Views(bss)).Ok? ==>
              && CertifyViews(o, START, Views(bss)).value.hash == Hash(Flatten(Flatten(bss)))
              && Ok(CertifyViews(o, START, Views(bss)).value.scan) == StreamScan(o, Flatten(bss))
  {
    StreamCertified(o, bss);
  }

  // ---------------------------------------------------------------- v1 over the same payloads

  /** The row group that stores the payloads as they are. */
  function PayloadGroup(bs: seq<PayloadRecord>): PC.Group
    requires |bs| < U64_LIMIT
  {
    PC.Group(PC.FixedBinary(168, Flatten(bs)), |bs|)
  }

  ghost predicate FixedWidth(bss: seq<seq<PayloadRecord>>) {
    forall i :: 0 <= i < |bss| ==> AllWidth(bss[i], 168) && 168 * |bss[i]| < U64_LIMIT
  }

  ghost function PayloadGroups(bss: seq<seq<PayloadRecord>>): (gs: seq<PC.Group>)
    requires FixedWidth(bss)
    ensures |gs| == |bss|
  {
    seq(|bss|, i requires 0 <= i < |bss| => PayloadGroup(bss[i]))
  }

  lemma GroupShaped(bs: seq<PayloadRecord>)
    requires AllWidth(bs, 168) && 168 * |bs| < U64_LIMIT
    ensures PC.Misshapen(168, PayloadGroup(bs)) == None
  {
    FlattenWidth(bs, 168);
  }

  /** Cutting the stored bytes into records gives the payloads back. */
  lemma GroupRecords(bs: seq<PayloadRecord>)
    requires AllWidth(bs, 168) && 168 * |bs| < U64_LIMIT
    requires PC.Misshapen(168, PayloadGroup(bs)) == None
    ensures PC.GroupDecoded(168, PayloadGroup(bs)) == Decodes(bs)
  {
    var g := PayloadGroup(bs);
    forall i | 0 <= i < |bs| ensures PC.RecordAt(168, g, i) == bs[i] {
      FlattenSlice(bs, 168, i);
    }
  }

  /** The v1 scan too depends only on the stream. */
  lemma {:induction false} PayloadScanOfStream(day: U32, ch: Channel, bss: seq<seq<PayloadRecord>>)
    requires FixedWidth(bss)
    ensures PC.ScanAll(day, ch, 168, PayloadGroups(bss))
         == ScanRecords(day, ch, HeaderState(NO_ROWS, ch.first), Decodes(Flatten(bss)))
  {
    if bss != [] {
      var n := |bss| - 1;
      PayloadScanOfStream(day, ch, bss[..n]);
      assert PayloadGroups(bss)[..n] == PayloadGroups(bss[..n]);
      GroupShaped(bss[n]);
      GroupRecords(bss[n]);
      DecodesAppend(Flatten(bss[..n]), bss[n]);
      RecordsAppend(day, ch, HeaderState(NO_ROWS, ch.first), Decodes(Flatten(bss[..n])), Decodes(bss[n]));
    }
  }

  // ---------------------------------------------------------------- the two artifacts

  /** The v1 certifier over the stored row groups. */
  ghost function CertifyColumns(day: U32, ch: Channel, rowCount: U64, gs: seq<PC.Group>): Result<Totals, ScanError> {
    var t :- PC.ScanColumns(day, ch, 168, gs);
    CheckTotals(ExpectChannel(day, ch), rowCount, t)
  }

  /**
   One payload stream stored twice: as fixed-binary row groups `ass`, and as lanes cut
   into row groups `bss`. The v1 certifier of one artifact against a channel entry and
   the v2 certifier of the other agree on acceptance and on the whole report; a v2
   artifact that is held to a legacy hash is accepted only with the hash of the very
   bytes the v1 artifact stores.
   */
  lemma ArtifactsAgree(
    day: U32, ch: Channel, rowCount: U64, o: V2Options, expectedHash: Option<U64>,
    ass: seq<seq<PayloadRecord>>, bss: seq<seq<PayloadRecord>>)
    requires o.continuity && o.legacy && o.expected == ExpectChannel(day, ch)
    requires AllSplittable(bss) && GroupsWithinLimit(o, bss) && FixedWidth(ass) && Flatten(ass) == Flatten(bss)
    ensures var v1 := CertifyColumns(day, ch, rowCount, PayloadGroups(ass));
            var v2 := CertifiedFile(o, rowCount, expectedHash, Views(bss));
            var stored := Hash(Flatten(Flatten(ass)));
            && (v2.Ok? <==> v1.Ok? && (expectedHash.Some? ==> expectedHash.value == stored))
            && (v2.Ok? ==> v2.value.scan.totals == v1.value && v2.value.hash == stored)
            && (v2.Ok? ==> v1.value.rows == rowCount == ch.last - ch.first + 1)
  {
    var ds := Decodes(Flatten(bss));
    PayloadScanOfStream(day, ch, ass);
    LegacyHashOfStream(o, bss);
    CertifiersAgree(day, ch, rowCount, ds);
    CertificateOfLanes(o, rowCount, expectedHash, LaneRows(ds), Hash(Flatten(Flatten(bss))));
  }

  lemma CertificateOfLanes(o: V2Options, rowCount: U64, expectedHash: Option<U64>, lanes: seq<Row>, h: U64)
    requires o.legacy
    ensures var scan := ScanRows(o.expected, FRESH, lanes);
            var certificate := if scan.Ok? then Certificate(o, rowCount, expectedHash, Progress(scan.value, h)) else Err(scan.error);
            var certified := CertifyLanes(o.expected, rowCount, lanes);
            && (certificate.Ok? <==> certified.Ok? && (expectedHash.Some? ==> expectedHash.value == h))
            && (certificate.Ok? ==> certificate.value.scan.totals == certified.value && certificate.value.hash == h)
  {
  }
}
