/** What an accepted physical-v2 file means, for any lanes and any options. */
module FileCertification {
  import opened Basics
  import opened Bytes
  import opened Slices
  import opened CompactL2
  import opened CompactL2Batch
  import opened ContinuityScan
  import opened PayloadScan
  import opened Fnv
  import opened Certification

  // ---------------------------------------------------------------- the two halves of the fold

  function ScanViews(o: V2Options, s: LaneState, vs: seq<BatchView>): Result<LaneState, ScanError> {
    if vs == [] then Ok(s)
    else
      var before :- ScanViews(o, s, vs[..|vs| - 1]);
      ScanOrCount(o, before, vs[|vs| - 1])
  }

  function HashViews(o: V2Options, h: U64, vs: seq<BatchView>): Result<U64, ScanError> {
    if vs == [] then Ok(h)
    else
      var before :- HashViews(o, h, vs[..|vs| - 1]);
      LegacyHash(o, before, vs[|vs| - 1])
  }

  /** Scanning and hashing interleave but do not interfere. */
  lemma {:induction false} HalvesSeparate(o: V2Options, p: Progress, vs: seq<BatchView>)
    ensures var scan, hash := ScanViews(o, p.scan, vs), HashViews(o, p.hash, vs);
            && (CertifyViews(o, p, vs).Ok? <==> scan.Ok? && hash.Ok?)
            && (CertifyViews(o, p, vs).Ok? ==> CertifyViews(o, p, vs) == Ok(Progress(scan.value, hash.value)))
  {
    if vs != [] {
      HalvesSeparate(o, p, vs[..|vs| - 1]);
    }
  }

  // ---------------------------------------------------------------- the scan half

  ghost predicate AllLanesValid(vs: seq<BatchView>) { forall i :: 0 <= i < |vs| ==> LanesValid(vs[i]) }

  /** The rows of all batches, in order. */
  ghost function AllRows(vs: seq<BatchView>): seq<Row>
    requires AllLanesValid(vs)
  {
    if vs == [] then [] else AllRows(vs[..|vs| - 1]) + RowsOf(vs[|vs| - 1])
  }

  function RowTotal(vs: seq<BatchView>): nat {
    if vs == [] then 0 else RowTotal(vs[..|vs| - 1]) + vs[|vs| - 1].rowCount
  }

  lemma {:induction false} AllRowsCount(vs: seq<BatchView>)
    requires AllLanesValid(vs)
    ensures |AllRows(vs)| == RowTotal(vs)
  {
    if vs != [] {
      AllRowsCount(vs[..|vs| - 1]);
    }
  }

  lemma {:induction false} ScannedAreValid(o: V2Options, vs: seq<BatchView>)
    requires o.continuity && ScanViews(o, FRESH, vs).Ok?
    ensures AllLanesValid(vs)
  {
    if vs != [] {
      ScannedAreValid(o, vs[..|vs| - 1]);
    }
  }

  lemma {:induction false} ValidAreScanned(o: V2Options, vs: seq<BatchView>)
    requires o.continuity && AllLanesValid(vs)
    ensures ScanViews(o, FRESH, vs) == ScanRows(o.expected, FRESH, AllRows(vs))
  {
    if vs != [] {
      var n := |vs| - 1;
      ValidAreScanned(o, vs[..n]);
      ScanAppend(o.expected, FRESH, AllRows(vs[..n]), RowsOf(vs[n]));
    }
  }

  lemma ScanViewsExact(o: V2Options, vs: seq<BatchView>)
    requires o.continuity
    ensures ScanViews(o, FRESH, vs).Ok? ==> AllLanesValid(vs)
    ensures AllLanesValid(vs) ==> ScanViews(o, FRESH, vs) == ScanRows(o.expected, FRESH, AllRows(vs))
  {
    if ScanViews(o, FRESH, vs).Ok? {
      ScannedAreValid(o, vs);
    }
    if AllLanesValid(vs) {
      ValidAreScanned(o, vs);
    }
  }

  lemma {:induction false} CountViewsExact(o: V2Options, vs: seq<BatchView>)
    requires !o.continuity
    ensures ScanViews(o, FRESH, vs) ==
            if RowTotal(vs) < U64_LIMIT then Ok(LaneState(NO_ROWS.(rows := RowTotal(vs)), None)) else Err(RowCountMismatch)
  {
    if vs != [] {
      CountViewsExact(o, vs[..|vs| - 1]);
    }
  }

  // ---------------------------------------------------------------- the hash half

  /** Every batch is within the reconstruction limit and can be rebuilt. */
  ghost predicate Rebuildable(o: V2Options, vs: seq<BatchView>) {
    vs == [] || (Rebuildable(o, vs[..|vs| - 1]) && WithinLimit(o, vs[|vs| - 1]) && BatchPayload(vs[|vs| - 1]).Ok?)
  }

  /** All rebuilt payloads, in order. */
  ghost function Rebuilt(o: V2Options, vs: seq<BatchView>): seq<Byte>
    requires Rebuildable(o, vs)
  {
    if vs == [] then [] else Rebuilt(o, vs[..|vs| - 1]) + BatchPayload(vs[|vs| - 1]).value
  }

  lemma {:induction false} HashViewsExact(o: V2Options, vs: seq<BatchView>)
    ensures !o.legacy ==> HashViews(o, OFFSET_BASIS, vs) == Ok(OFFSET_BASIS)
    ensures o.legacy ==> (HashViews(o, OFFSET_BASIS, vs).Ok? <==> Rebuildable(o, vs))
    ensures o.legacy && Rebuildable(o, vs) ==> HashViews(o, OFFSET_BASIS, vs) == Ok(Hash(Rebuilt(o, vs)))
  {
    if vs != [] {
      var n := |vs| - 1;
      HashViewsExact(o, vs[..n]);
      if o.legacy && Rebuildable(o, vs) {
        FoldAppend(OFFSET_BASIS, Rebuilt(o, vs[..n]), BatchPayload(vs[n]).value);
      }
    }
  }

  // ---------------------------------------------------------------- the file

  /** The checks after the last wave: totals, then the expected legacy hash. */
  function Certificate(o: V2Options, metadataRows: U64, expectedHash: Option<U64>, p: Progress): Result<Progress, ScanError> {
    var _ :- CheckTotals(o.expected, metadataRows, p.scan.totals);
    if o.legacy && expectedHash.Some? && p.hash != expectedHash.value then Err(ChecksumMismatch) else Ok(p)
  }

  function CertifiedFile(o: V2Options, metadataRows: U64, expectedHash: Option<U64>, vs: seq<BatchView>): Result<Progress, ScanError> {
    var p :- CertifyViews(o, START, vs);
    Certificate(o, metadataRows, expectedHash, p)
  }

  /** The rows are as expected, or, when they are not examined, few enough to count. */
  ghost predicate RowsAccepted(o: V2Options, vs: seq<BatchView>) {
    if o.continuity then AllLanesValid(vs) && Continuous(o.expected, Start(o.expected, AllRows(vs)), AllRows(vs))
    else RowTotal(vs) < U64_LIMIT
  }

  /** An expected edge is the edge of rows that were examined. */
  ghost predicate EdgesAccepted(o: V2Options, vs: seq<BatchView>)
    requires RowsAccepted(o, vs)
  {
    && (o.expected.first.Some? ==> o.continuity && AllRows(vs) != [] && AllRows(vs)[0].biz == o.expected.first.value)
    && (o.expected.last.Some? ==>
          o.continuity && AllRows(vs) != [] && AllRows(vs)[|AllRows(vs)| - 1].biz == o.expected.last.value)
  }

  /** What the file's payloads must be, when they are reconstructed. */
  ghost predicate PayloadsAccepted(o: V2Options, expectedHash: Option<U64>, vs: seq<BatchView>) {
    o.legacy ==> Rebuildable(o, vs) && (expectedHash.Some? ==> Hash(Rebuilt(o, vs)) == expectedHash.value)
  }

  ghost predicate FileAccepted(o: V2Options, metadataRows: U64, expectedHash: Option<U64>, vs: seq<BatchView>) {
    && RowsAccepted(o, vs) && EdgesAccepted(o, vs)
    && RowTotal(vs) == metadataRows
    && PayloadsAccepted(o, expectedHash, vs)
  }

  /** The report: true totals of examined rows, and the hash of the rebuilt payloads. */
  ghost predicate TrueReport(o: V2Options, vs: seq<BatchView>, p: Progress) {
    && p.scan.totals.rows == RowTotal(vs)
    && (o.continuity ==> AllLanesValid(vs) && Describes(p.scan.totals, AllRows(vs)))
    && (o.legacy ==> Rebuildable(o, vs) && p.hash == Hash(Rebuilt(o, vs)))
  }

  lemma ViewsAccepted(o: V2Options, vs: seq<BatchView>)
    ensures CertifyViews(o, START, vs).Ok? <==> RowsAccepted(o, vs) && (o.legacy ==> Rebuildable(o, vs))
    ensures CertifyViews(o, START, vs).Ok? ==> TrueReport(o, vs, CertifyViews(o, START, vs).value)
    ensures CertifyViews(o, START, vs).Ok? && !o.continuity ==>
              CertifyViews(o, START, vs).value.scan.totals == NO_ROWS.(rows := RowTotal(vs))
  {
    HalvesSeparate(o, START, vs);
    HashViewsExact(o, vs);
    if o.continuity {
      ScanViewsExact(o, vs);
      if AllLanesValid(vs) {
        ScanExact(o.expected, AllRows(vs));
        AllRowsCount(vs);
      }
    } else {
      CountViewsExact(o, vs);
    }
  }

  /**
   A file is accepted exactly when its rows are continuous as expected, number what the
   metadata says, have the expected edges, and rebuild to payloads of the expected hash;
   and then its report is true.
   */
  lemma AcceptedIff(o: V2Options, metadataRows: U64, expectedHash: Option<U64>, vs: seq<BatchView>)
    ensures CertifiedFile(o, metadataRows, expectedHash, vs).Ok? <==> FileAccepted(o, metadataRows, expectedHash, vs)
    ensures CertifiedFile(o, metadataRows, expectedHash, vs).Ok? ==>
              TrueReport(o, vs, CertifiedFile(o, metadataRows, expectedHash, vs).value)
  {
    ViewsAccepted(o, vs);
  }

  /** `certify_compact_l2_physical_v2_file` from the first wave on. */
  method CertifyFile(o: V2Options, metadataRows: U64, expectedHash: Option<U64>, vs: seq<BatchView>)
    returns (res: Result<Progress, ScanError>)
    ensures res.Ok? <==> FileAccepted(o, metadataRows, expectedHash, vs)
    ensures res.Ok? ==> TrueReport(o, vs, res.value)
    ensures res == CertifiedFile(o, metadataRows, expectedHash, vs)
  {
    AcceptedIff(o, metadataRows, expectedHash, vs);
    res := CertifyWaves(o, vs);
    if res.Err? {
      return;
    }
    var totals := res.value.scan.totals;
    if totals.rows != metadataRows {
      return Err(RowCountMismatch);
    }
    if o.expected.first.Some? && totals.first != o.expected.first {
      return Err(BizIndexGap);
    }
    if o.expected.last.Some? && totals.last != o.expected.last {
      return Err(BizIndexGap);
    }
    if o.legacy && expectedHash.Some? && res.value.hash != expectedHash.value {
      return Err(ChecksumMismatch);
    }
  }
}
