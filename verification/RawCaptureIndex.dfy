/**
 The inspector of a raw UART capture and its timing index
 (sensors/raw_capture_index.py).  A line of the index is given as what its JSON
 text holds; an integer field that is missing or of another type is `None`.
 */
module RawCaptureIndex {
  import opened Wrappers

  const INDEX_VERSION := 1

  /** The fields every record repeats. */
  datatype Metadata = Metadata(ids: seq<string>, baudrate: int, compatibility: Option<(bool, bool)>)

  datatype ChunkRecord = ChunkRecord(
    chunkSeq: Option<int>, byteOffset: Option<int>, byteLength: Option<int>,
    readStarted: Option<int>, readFinished: Option<int>, midpoint: Option<int>, quality: Option<int>)

  datatype EndRecord = EndRecord(
    chunks: Option<int>, rawBytes: Option<int>, sha256: Option<string>, frames: Option<int>,
    ended: Option<int>, stopReason: Option<string>)

  datatype Body = ChunkBody(chunk: ChunkRecord) | EndBody(end: EndRecord) | OtherBody

  /** `metadata` is `None` when a field of it is missing or malformed. */
  datatype Line =
    | Overlong
    | Malformed(terminated: bool)
    | Record(terminated: bool, version: Option<int>, metadata: Option<Metadata>, body: Body)

  datatype Error =
    | NoRawFile | RawUnreadable | NoIndex
    | LineTooLong | IncompleteLine | InvalidRecord | WrongVersion | BadMetadata | MetadataChanged
    | AfterEnd | BadInteger | WrongChunkSeq | WrongOffset | TimeReversed | TimeOverlap | WrongMidpoint
    | BadDigest | EndTooEarly | NoStopReason | WrongChunkTotal | WrongByteTotal | UnknownRecord
    | NoFooter | ManyFooters | RawSizeMismatch | FooterSizeMismatch | DigestMismatch

  /** The running counters of the pass. */
  datatype Tally = Tally(
    chunks: nat, indexedBytes: nat, previousFinished: Option<int>, metadata: Option<Metadata>,
    footers: nat, footerBytes: Option<int>, footerDigest: Option<string>)

  const EMPTY := Tally(0, 0, None, None, 0, None, None)

  function AtLeast(v: Option<int>, minimum: int): Option<int> {
    if v.Some? && v.value >= minimum then v else None
  }

  predicate IsDigest(s: string) {
    |s| == 64 && forall c | c in s :: '0' <= c <= '9' || 'a' <= c <= 'f'
  }

  function If(condition: bool, e: Error): seq<Error> {
    if condition then [e] else []
  }

  function BadIntegers(vs: seq<Option<int>>): seq<Error> {
    if vs == [] then [] else If(vs[0].None?, BadInteger) + BadIntegers(vs[1..])
  }

  function ChunkErrors(t: Tally, r: ChunkRecord): seq<Error> {
    var number, offset, length := AtLeast(r.chunkSeq, 1), AtLeast(r.byteOffset, 0), AtLeast(r.byteLength, 1);
    var started, finished := AtLeast(r.readStarted, 0), AtLeast(r.readFinished, 0);
    var midpoint := AtLeast(r.midpoint, 0);
    var timed := started.Some? && finished.Some?;
    BadIntegers([number, offset, length, started, finished, midpoint, AtLeast(r.quality, 0)])
    + If(number.Some? && number.value != t.chunks + 1, WrongChunkSeq)
    + If(offset.Some? && offset.value != t.indexedBytes, WrongOffset)
    + If(timed && started.value > finished.value, TimeReversed)
    + If(timed && t.previousFinished.Some? && started.value < t.previousFinished.value, TimeOverlap)
    + If(timed && midpoint.Some? && midpoint.value != (started.value + finished.value) / 2, WrongMidpoint)
  }

  function ChunkTally(t: Tally, r: ChunkRecord): Tally {
    var length := AtLeast(r.byteLength, 1);
    var timed := AtLeast(r.readStarted, 0).Some? && AtLeast(r.readFinished, 0).Some?;
    t.(chunks := t.chunks + 1,
       indexedBytes := t.indexedBytes + (if length.Some? then length.value else 0),
       previousFinished := if timed then r.readFinished else t.previousFinished)
  }

  function EndErrors(t: Tally, r: EndRecord): seq<Error> {
    var chunks, bytes, ended := AtLeast(r.chunks, 0), AtLeast(r.rawBytes, 0), AtLeast(r.ended, 0);
    BadIntegers([chunks, bytes, AtLeast(r.frames, 0), ended])
    + If(r.sha256.None? || !IsDigest(r.sha256.value), BadDigest)
    + If(ended.Some? && t.previousFinished.Some? && ended.value < t.previousFinished.value, EndTooEarly)
    + If(r.stopReason.None? || r.stopReason.value == "", NoStopReason)
    + If(chunks.Some? && chunks.value != t.chunks, WrongChunkTotal)
    + If(bytes.Some? && bytes.value != t.indexedBytes, WrongByteTotal)
  }

  function EndTally(t: Tally, r: EndRecord): Tally {
    t.(footers := t.footers + 1, footerBytes := AtLeast(r.rawBytes, 0),
       footerDigest := if r.sha256.Some? && IsDigest(r.sha256.value) then r.sha256 else t.footerDigest)
  }

  function BodyErrors(t: Tally, b: Body): seq<Error> {
    match b
    case ChunkBody(r) => ChunkErrors(t, r)
    case EndBody(r) => EndErrors(t, r)
    case OtherBody => [UnknownRecord]
  }

  function BodyTally(t: Tally, b: Body): Tally {
    match b
    case ChunkBody(r) => ChunkTally(t, r)
    case EndBody(r) => EndTally(t, r)
    case OtherBody => t
  }

  /** What one line adds to the error list. */
  function LineErrors(t: Tally, l: Line): seq<Error> {
    match l
    case Overlong => [LineTooLong]
    case Malformed(terminated) => If(!terminated, IncompleteLine) + [InvalidRecord]
    case Record(terminated, version, metadata, body) =>
      If(!terminated, IncompleteLine)
      + If(version != Some(INDEX_VERSION), WrongVersion)
      + If(metadata.None?, BadMetadata)
      + If(metadata.Some? && t.metadata.Some? && metadata != t.metadata, MetadataChanged)
      + If(t.footers > 0, AfterEnd)
      + BodyErrors(t, body)
  }

  function LineTally(t: Tally, l: Line): Tally {
    if !l.Record? then t
    else BodyTally(if t.metadata.None? then t.(metadata := l.metadata) else t, l.body)
  }

  function Scan(lines: seq<Line>): Tally {
    if lines == [] then EMPTY else LineTally(Scan(lines[..|lines| - 1]), lines[|lines| - 1])
  }

  function ScanErrors(lines: seq<Line>): seq<Error> {
    if lines == [] then []
    else
      var front := lines[..|lines| - 1];
      ScanErrors(front) + LineErrors(Scan(front), lines[|lines| - 1])
  }

  /** The raw file as found on disk; either part may be unavailable. */
  datatype RawFile = RawFile(size: Option<nat>, digest: Option<string>)

  function FinalErrors(raw: RawFile, t: Tally): seq<Error> {
    If(t.footers == 0, NoFooter) + If(t.footers > 1, ManyFooters)
    + If(raw.size.Some? && raw.size.value != t.indexedBytes, RawSizeMismatch)
    + If(raw.size.Some? && t.footerBytes.Some? && raw.size.value != t.footerBytes.value, FooterSizeMismatch)
    + If(raw.size.Some? && raw.digest.Some? && t.footerDigest.Some? && raw.digest != t.footerDigest, DigestMismatch)
  }

  function RawErrors(raw: RawFile): seq<Error> {
    If(raw.size.None?, NoRawFile) + If(raw.size.Some? && raw.digest.None?, RawUnreadable)
  }

  function Inspection(raw: RawFile, index: Option<seq<Line>>): seq<Error> {
    match index
    case None => RawErrors(raw) + [NoIndex]
    case Some(lines) => RawErrors(raw) + ScanErrors(lines) + FinalErrors(raw, Scan(lines))
  }

  /** The inspector: one pass with running counters and an appended error list. */
  method InspectUartChunkIndex(raw: RawFile, index: Option<seq<Line>>) returns (healthy: bool, errors: seq<Error>)
    ensures errors == Inspection(raw, index) && healthy == (errors == [])
  {
    errors := RawErrors(raw);
    if index.None? {
      errors := errors + [NoIndex];
      return false, errors;
    }
    var t, found := ScanLines(index.value);
    errors := errors + found + FinalErrors(raw, t);
    healthy := errors == [];
  }

  method ScanLines(lines: seq<Line>) returns (t: Tally, errors: seq<Error>)
    ensures t == Scan(lines) && errors == ScanErrors(lines)
  {
    hide LineErrors, LineTally;
    t, errors := EMPTY, [];
    for i := 0 to |lines|
      invariant t == Scan(lines[..i]) && errors == ScanErrors(lines[..i])
    {
      assert lines[..i + 1][..i] == lines[..i];
      errors := errors + LineErrors(t, lines[i]);
      t := LineTally(t, lines[i]);
    }
    assert lines[..|lines|] == lines;
  }

  // --- What healthy means ---------------------------------------------------------

  predicate IsChunk(l: Line) {
    l.Record? && l.body.ChunkBody? && l.body.chunk.byteLength.Some? && l.body.chunk.byteLength.value >= 1
  }

  /** Bytes the first `n` lines account for. */
  function BytesBefore(lines: seq<Line>, n: nat): nat
    requires n <= |lines|
  {
    if n == 0 then 0
    else BytesBefore(lines, n - 1) + if IsChunk(lines[n - 1]) then lines[n - 1].body.chunk.byteLength.value else 0
  }

  /** A record in good form, of the version and metadata of the whole capture. */
  predicate InForm(l: Line, m: Metadata) {
    l.Record? && l.terminated && l.version == Some(INDEX_VERSION) && l.metadata == Some(m)
  }

  /** Line `i` records chunk `i + 1`: the next bytes, read in a window after the one before. */
  predicate ChunkInPlace(lines: seq<Line>, i: nat)
    requires i < |lines|
  {
    && IsChunk(lines[i])
    && var c := lines[i].body.chunk;
      && c.chunkSeq == Some(i + 1)
      && c.byteOffset == Some(BytesBefore(lines, i))
      && c.readStarted.Some? && c.readFinished.Some? && 0 <= c.readStarted.value <= c.readFinished.value
      && c.midpoint == Some((c.readStarted.value + c.readFinished.value) / 2)
      && c.quality.Some? && c.quality.value >= 0
      && (i > 0 ==> IsChunk(lines[i - 1]) && lines[i - 1].body.chunk.readFinished.Some?
                    && lines[i - 1].body.chunk.readFinished.value <= c.readStarted.value)
  }

  predicate EndInPlace(lines: seq<Line>, n: nat)
    requires n < |lines|
  {
    && lines[n].Record? && lines[n].body.EndBody?
    && var e := lines[n].body.end;
      && e.chunks == Some(n) && e.rawBytes == Some(BytesBefore(lines, n))
      && e.frames.Some? && e.frames.value >= 0
      && e.ended.Some? && e.ended.value >= 0
      && (n > 0 ==> IsChunk(lines[n - 1]) && lines[n - 1].body.chunk.readFinished.Some?
                    && lines[n - 1].body.chunk.readFinished.value <= e.ended.value)
      && e.stopReason.Some? && e.stopReason.value != ""
      && e.sha256.Some? && IsDigest(e.sha256.value)
  }

  /** The records tile the raw file and end in one footer that agrees with them and with the file. */
  predicate WellIndexed(raw: RawFile, lines: seq<Line>, m: Metadata) {
    && lines != []
    && (forall i | 0 <= i < |lines| :: InForm(lines[i], m))
    && (forall i | 0 <= i < |lines| - 1 :: ChunkInPlace(lines, i))
    && EndInPlace(lines, |lines| - 1)
    && raw.size == Some(BytesBefore(lines, |lines| - 1))
    && raw.digest == lines[|lines| - 1].body.end.sha256
  }

  /** The counters after the first `n` lines, all of them chunks in place. */
  function TallyOf(lines: seq<Line>, n: nat): Tally
    requires n <= |lines| && forall i | 0 <= i < n :: IsChunk(lines[i])
  {
    assert n > 0 ==> IsChunk(lines[n - 1]) && IsChunk(lines[0]);
    Tally(n, BytesBefore(lines, n), if n == 0 then None else lines[n - 1].body.chunk.readFinished,
          if n == 0 then None else lines[0].metadata, 0, None, None)
  }

  ghost predicate ChunksInPlace(lines: seq<Line>, m: Metadata) {
    (forall i | 0 <= i < |lines| :: InForm(lines[i], m)) && (forall i | 0 <= i < |lines| :: ChunkInPlace(lines, i))
  }

  lemma NoBadIntegers(vs: seq<Option<int>>)
    ensures BadIntegers(vs) == [] <==> forall i | 0 <= i < |vs| :: vs[i].Some?
  {
    if vs != [] {
      NoBadIntegers(vs[1..]);
      assert forall i | 1 <= i < |vs| :: vs[i] == vs[1..][i - 1];
    }
  }

  lemma ChunkGood(t: Tally, r: ChunkRecord)
    ensures ChunkErrors(t, r) == [] <==>
      && r.chunkSeq == Some(t.chunks + 1) && r.byteOffset == Some(t.indexedBytes)
      && r.byteLength.Some? && r.byteLength.value >= 1
      && r.readStarted.Some? && r.readFinished.Some? && 0 <= r.readStarted.value <= r.readFinished.value
      && (t.previousFinished.Some? ==> t.previousFinished.value <= r.readStarted.value)
      && r.midpoint == Some((r.readStarted.value + r.readFinished.value) / 2)
      && r.quality.Some? && r.quality.value >= 0
  {
    var vs := [AtLeast(r.chunkSeq, 1), AtLeast(r.byteOffset, 0), AtLeast(r.byteLength, 1), AtLeast(r.readStarted, 0),
               AtLeast(r.readFinished, 0), AtLeast(r.midpoint, 0), AtLeast(r.quality, 0)];
    NoBadIntegers(vs);
    assert BadIntegers(vs) == [] <==> vs[0].Some? && vs[1].Some? && vs[2].Some? && vs[3].Some? && vs[4].Some? && vs[5].Some? && vs[6].Some?;
    hide BadIntegers;
  }

  lemma EndGood(t: Tally, r: EndRecord)
    ensures EndErrors(t, r) == [] <==>
      && r.chunks == Some(t.chunks) && r.rawBytes == Some(t.indexedBytes)
      && r.frames.Some? && r.frames.value >= 0 && r.ended.Some? && r.ended.value >= 0
      && (t.previousFinished.Some? ==> t.previousFinished.value <= r.ended.value)
      && r.stopReason.Some? && r.stopReason.value != "" && r.sha256.Some? && IsDigest(r.sha256.value)
  {
    hide IsDigest;
    var vs := [AtLeast(r.chunks, 0), AtLeast(r.rawBytes, 0), AtLeast(r.frames, 0), AtLeast(r.ended, 0)];
    NoBadIntegers(vs);
    assert BadIntegers(vs) == [] <==> vs[0].Some? && vs[1].Some? && vs[2].Some? && vs[3].Some?;
    hide BadIntegers;
  }

  lemma {:induction false} BytesBeforeInPrefix(lines: seq<Line>, k: nat, n: nat)
    requires n <= k <= |lines|
    ensures BytesBefore(lines[..k], n) == BytesBefore(lines, n)
  {
    if n > 0 {
      BytesBeforeInPrefix(lines, k, n - 1);
    }
  }

  lemma InPlaceInPrefix(lines: seq<Line>, k: nat, i: nat)
    requires i < k <= |lines|
    ensures ChunkInPlace(lines[..k], i) == ChunkInPlace(lines, i)
    ensures EndInPlace(lines[..k], i) == EndInPlace(lines, i)
  {
    hide BytesBefore, IsChunk, IsDigest;
    BytesBeforeInPrefix(lines, k, i);
    assert lines[..k][i] == lines[i] && (i > 0 ==> lines[..k][i - 1] == lines[i - 1]);
  }

  /** After `n` chunks in place, the next line adds no error exactly when it is in form and in place. */
  lemma NextLine(lines: seq<Line>, n: nat, m: Metadata)
    requires n < |lines| && ChunksInPlace(lines[..n], m)
    requires forall i | 0 <= i < n :: IsChunk(lines[i])
    ensures n > 0 ==> TallyOf(lines, n).metadata == Some(m)
    ensures LineErrors(TallyOf(lines, n), lines[n]) == [] <==>
      && lines[n].Record? && lines[n].metadata.Some? && InForm(lines[n], if n == 0 then lines[n].metadata.value else m)
      && (ChunkInPlace(lines, n) || EndInPlace(lines, n))
  {
    hide BytesBefore, IsDigest, ChunkErrors, EndErrors;
    var t := TallyOf(lines, n);
    if n > 0 {
      assert InForm(lines[..n][0], m) && ChunkInPlace(lines[..n], n - 1);
      assert IsChunk(lines[n - 1]) && IsChunk(lines[0]);
      InPlaceInPrefix(lines, n, n - 1);
    }
    if lines[n].Record? {
      if lines[n].body.ChunkBody? {
        ChunkGood(t, lines[n].body.chunk);
      } else if lines[n].body.EndBody? {
        EndGood(t, lines[n].body.end);
      }
    }
  }

  lemma NextTally(lines: seq<Line>, n: nat)
    requires n < |lines| && forall i | 0 <= i <= n :: IsChunk(lines[i])
    requires ChunkInPlace(lines, n) && (n > 0 ==> lines[0].Record? && lines[0].metadata.Some?)
    ensures LineTally(TallyOf(lines, n), lines[n]) == TallyOf(lines, n + 1)
  {
    assert IsChunk(lines[n]) && IsChunk(lines[0]);
  }

  /** A run of chunks in place is scanned without error. */
  lemma {:induction false} ScanOfChunks(lines: seq<Line>, n: nat, m: Metadata)
    requires n <= |lines| && ChunksInPlace(lines[..n], m)
    ensures forall i | 0 <= i < n :: IsChunk(lines[i])
    ensures ScanErrors(lines[..n]) == [] && Scan(lines[..n]) == TallyOf(lines, n)
  {
    forall i | 0 <= i < n ensures IsChunk(lines[i]) {
      assert ChunkInPlace(lines[..n], i) && lines[..n][i] == lines[i];
    }
    if n > 0 {
      assert lines[..n][..n - 1] == lines[..n - 1];
      ChunksInPrefix(lines, n, m);
      ScanOfChunks(lines, n - 1, m);
      hide IsChunk, LineErrors, LineTally, BytesBefore;
      NextLine(lines, n - 1, m);
      InPlaceInPrefix(lines, n, n - 1);
      assert ChunkInPlace(lines[..n], n - 1) && InForm(lines[..n][n - 1], m);
      NextTally(lines, n - 1);
    }
  }

  lemma ChunksInPrefix(lines: seq<Line>, n: nat, m: Metadata)
    requires 0 < n <= |lines| && ChunksInPlace(lines[..n], m)
    ensures ChunksInPlace(lines[..n - 1], m)
  {
    hide ChunkInPlace, InForm;
    var front := lines[..n - 1];
    forall i | 0 <= i < |front| ensures ChunkInPlace(front, i) && InForm(front[i], m) {
      InPlaceInPrefix(lines, n, i);
      InPlaceInPrefix(lines, n - 1, i);
      assert ChunkInPlace(lines[..n], i) && InForm(lines[..n][i], m);
    }
  }

  /** Lines scanned without error: chunks in place, then at most one footer in place. */
  lemma {:induction false} ScanGood(lines: seq<Line>, n: nat) returns (m: Metadata)
    requires n <= |lines| && ScanErrors(lines[..n]) == []
    ensures Scan(lines[..n]).footers == 0 ==> ChunksInPlace(lines[..n], m)
    ensures Scan(lines[..n]).footers > 0 ==>
      n > 0 && ChunksInPlace(lines[..n - 1], m) && InForm(lines[n - 1], m) && EndInPlace(lines, n - 1)
  {
    if n == 0 {
      m := Metadata([], 0, None);
    } else {
      assert lines[..n][..n - 1] == lines[..n - 1];
      m := ScanGood(lines, n - 1);
      NoErrorsNoFooter(lines, n - 1);
      ScanOfChunks(lines, n - 1, m);
      NextLine(lines, n - 1, m);
      if n == 1 {
        m := lines[0].metadata.value;
      }
      hide BytesBefore, IsDigest, ChunkErrors, EndErrors, Scan, ScanErrors;
      OneMore(lines, n, m);
    }
  }

  lemma NoErrorsNoFooter(lines: seq<Line>, k: nat)
    requires k < |lines| && ScanErrors(lines[..k + 1]) == []
    ensures Scan(lines[..k]).footers == 0 && LineErrors(Scan(lines[..k]), lines[k]) == []
    ensures Scan(lines[..k + 1]) == LineTally(Scan(lines[..k]), lines[k])
  {
    assert lines[..k + 1][..k] == lines[..k];
    hide BodyErrors;
  }

  lemma OneMore(lines: seq<Line>, n: nat, m: Metadata)
    requires 0 < n <= |lines| && ChunksInPlace(lines[..n - 1], m) && InForm(lines[n - 1], m)
    requires forall i | 0 <= i < n - 1 :: IsChunk(lines[i])
    requires ChunkInPlace(lines, n - 1) || EndInPlace(lines, n - 1)
    ensures LineTally(TallyOf(lines, n - 1), lines[n - 1]).footers == 0 ==> ChunksInPlace(lines[..n], m)
    ensures LineTally(TallyOf(lines, n - 1), lines[n - 1]).footers > 0 ==> EndInPlace(lines, n - 1)
  {
    hide BytesBefore, IsDigest;
    if ChunkInPlace(lines, n - 1) {
      hide ChunkInPlace, InForm;
      forall i | 0 <= i < n ensures ChunkInPlace(lines[..n], i) && InForm(lines[..n][i], m) {
        InPlaceInPrefix(lines, n, i);
        if i < n - 1 {
          InPlaceInPrefix(lines, n - 1, i);
          assert ChunkInPlace(lines[..n - 1], i) && InForm(lines[..n - 1][i], m);
        }
      }
    }
  }

  /**
   The inspector reports a capture healthy if and only if its records tile the
   raw file in order, with read windows that do not overlap, and one footer at
   the end agrees with the records and with the file.
   */
  lemma HealthyIff(raw: RawFile, lines: seq<Line>)
    ensures Inspection(raw, Some(lines)) == [] <==> exists m :: WellIndexed(raw, lines, m)
  {
    hide LineErrors, LineTally, ChunkInPlace, EndInPlace, InForm;
    if Inspection(raw, Some(lines)) == [] {
      var m := HealthyMeansWellIndexed(raw, lines);
      assert WellIndexed(raw, lines, m);
    }
    if m :| WellIndexed(raw, lines, m) {
      WellIndexedIsHealthy(raw, lines, m);
    }
  }

  lemma FooterTally(lines: seq<Line>, m: Metadata)
    requires lines != [] && ChunksInPlace(lines[..|lines| - 1], m) && InForm(lines[|lines| - 1], m)
    requires EndInPlace(lines, |lines| - 1)
    ensures var n := |lines| - 1;
      && ScanErrors(lines) == [] && Scan(lines).footers == 1
      && Scan(lines).indexedBytes == BytesBefore(lines, n) && Scan(lines).footerBytes == Some(BytesBefore(lines, n))
      && Scan(lines).footerDigest == lines[n].body.end.sha256 && lines[n].body.end.sha256.Some?
  {
    hide BytesBefore, IsDigest, ChunkErrors, EndErrors;
    var n := |lines| - 1;
    ScanOfChunks(lines, n, m);
    NextLine(lines, n, m);
  }

  lemma HealthyMeansWellIndexed(raw: RawFile, lines: seq<Line>) returns (m: Metadata)
    requires Inspection(raw, Some(lines)) == []
    ensures WellIndexed(raw, lines, m)
  {
    hide LineErrors, LineTally, ChunkInPlace, EndInPlace, InForm, Scan, ScanErrors, BytesBefore;
    assert lines[..|lines|] == lines;
    assert ScanErrors(lines) == [] && FinalErrors(raw, Scan(lines)) == [] && RawErrors(raw) == [];
    m := ScanGood(lines, |lines|);
    assert Scan(lines).footers > 0;
    FooterTally(lines, m);
    FromPrefix(lines, m);
  }

  lemma FromPrefix(lines: seq<Line>, m: Metadata)
    requires lines != [] && ChunksInPlace(lines[..|lines| - 1], m) && InForm(lines[|lines| - 1], m)
    ensures forall i | 0 <= i < |lines| :: InForm(lines[i], m)
    ensures forall i | 0 <= i < |lines| - 1 :: ChunkInPlace(lines, i)
  {
    hide ChunkInPlace, InForm;
    var front := lines[..|lines| - 1];
    forall i | 0 <= i < |front| ensures InForm(lines[i], m) && ChunkInPlace(lines, i) {
      assert InForm(front[i], m) && ChunkInPlace(front, i);
      InPlaceInPrefix(lines, |lines| - 1, i);
    }
  }

  lemma ToPrefix(raw: RawFile, lines: seq<Line>, m: Metadata)
    requires WellIndexed(raw, lines, m)
    ensures ChunksInPlace(lines[..|lines| - 1], m)
  {
    hide ChunkInPlace, InForm, EndInPlace;
    var front := lines[..|lines| - 1];
    forall i | 0 <= i < |front| ensures InForm(front[i], m) && ChunkInPlace(front, i) {
      assert InForm(lines[i], m) && ChunkInPlace(lines, i);
      InPlaceInPrefix(lines, |lines| - 1, i);
    }
  }

  lemma WellIndexedIsHealthy(raw: RawFile, lines: seq<Line>, m: Metadata)
    requires WellIndexed(raw, lines, m)
    ensures Inspection(raw, Some(lines)) == []
  {
    hide ChunkInPlace, InForm, Scan, ScanErrors, BytesBefore;
    ToPrefix(raw, lines, m);
    FooterTally(lines, m);
  }
}
