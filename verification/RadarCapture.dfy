/**
 The capture loop of the radar UART (sensors/radar_capture.py) with its header
 source (sensors/header_factory.py): frame counter classification, read
 timestamps, raw file, timing index and sensor headers.
 */
module RadarCapture {
  import opened Wrappers
  import opened TiStreamDecoder
  import opened TiStreamProperties
  import Index = RawCaptureIndex

  // --- Frame counter ----------------------------------------------------------------

  const WRAP := 0x1_0000_0000
  const HALF := 0x8000_0000

  datatype Transition = First | Duplicate | Wrapped | Gap | Consecutive | ResetOrOutOfOrder

  /** `classify_frame_transition`. */
  function Classify(previous: Option<int>, current: int): (int, Transition) {
    if previous.None? then (0, First)
    else
      var delta := (current - previous.value) % WRAP;
      if delta == 0 then (0, Duplicate)
      else if delta < HALF then
        if current < previous.value then (delta - 1, Wrapped)
        else if delta - 1 != 0 then (delta - 1, Gap)
        else (0, Consecutive)
      else (0, ResetOrOutOfOrder)
  }

  /** What the kinds mean for two numbers of the 32-bit counter. */
  lemma ClassifyMeans(a: int, b: int)
    requires 0 <= a < WRAP && 0 <= b < WRAP
    ensures Classify(None, b).0 == 0 && !Discontinuity(Classify(None, b).1)
    ensures var (gap, t) := Classify(Some(a), b);
      && (t.Duplicate? <==> b == a)
      && (t.Consecutive? <==> b == a + 1)
      && (t.Gap? <==> a + 1 < b < a + HALF)
      && (t.Wrapped? <==> b + HALF < a)
      && (t.ResetOrOutOfOrder? <==> Resets(a, b))
      && (Discontinuity(t) <==> b == a || Resets(a, b))
      && gap == (if t.Gap? then b - a - 1 else if t.Wrapped? then b + WRAP - a - 1 else 0)
  {
  }

  /** The number went back, or forward by half the range or more. */
  predicate Resets(a: int, b: int) {
    a + HALF <= b || (b < a && a <= b + HALF)
  }

  predicate Discontinuity(t: Transition) {
    t.Duplicate? || t.ResetOrOutOfOrder?
  }

  /** Sum of the gaps counted over a run of frame numbers. */
  function GapTotal(previous: Option<int>, numbers: seq<int>): int
    decreases |numbers|
  {
    if numbers == [] then 0
    else Classify(previous, numbers[0]).0 + GapTotal(Some(numbers[0]), numbers[1..])
  }

  function Discontinuities(previous: Option<int>, numbers: seq<int>): nat
    decreases |numbers|
  {
    if numbers == [] then 0
    else (if Discontinuity(Classify(previous, numbers[0]).1) then 1 else 0) + Discontinuities(Some(numbers[0]), numbers[1..])
  }

  /** A true counter as the 32-bit field shows it. */
  function Shown(counter: seq<int>): seq<int> {
    seq(|counter|, i requires 0 <= i < |counter| => counter[i] % WRAP)
  }

  predicate Steps(counter: seq<int>) {
    forall i | 0 < i < |counter| :: 1 <= counter[i] - counter[i - 1] < HALF
  }

  /** One step of the true counter is understood exactly when it is forward and below half the range. */
  lemma StepUnderstoodIff(from: int, to: int)
    ensures var (gap, t) := Classify(Some(from % WRAP), to % WRAP);
      gap == to - from - 1 && !Discontinuity(t) <==> 1 <= to - from < HALF
  {
    var d := to - from;
    assert (to % WRAP - from % WRAP) % WRAP == d % WRAP;
  }

  /**
   Across any number of wraps, the gaps counted plus the frames received after
   the first are the true advance of the counter, and nothing is mistaken for a
   duplicate or a reset.
   */
  lemma {:induction false} GapsAddUp(counter: seq<int>)
    requires counter != [] && Steps(counter)
    ensures GapTotal(None, Shown(counter)) + |counter| - 1 == counter[|counter| - 1] - counter[0]
    ensures Discontinuities(None, Shown(counter)) == 0
  {
    GapsAddUpFrom(counter);
    assert Shown(counter)[1..] == Shown(counter[1..]);
  }

  lemma {:induction false} GapsAddUpFrom(counter: seq<int>)
    requires counter != [] && Steps(counter)
    ensures var previous := Some(counter[0] % WRAP);
      && GapTotal(previous, Shown(counter[1..])) + |counter| - 1 == counter[|counter| - 1] - counter[0]
      && Discontinuities(previous, Shown(counter[1..])) == 0
  {
    if |counter| > 1 {
      var rest := counter[1..];
      assert Shown(rest)[1..] == Shown(rest[1..]);
      assert forall i | 0 < i < |rest| :: rest[i] - rest[i - 1] == counter[i + 1] - counter[i];
      GapsAddUpFrom(rest);
      StepUnderstoodIff(counter[0], counter[1]);
    }
  }

  // --- Sensor headers -----------------------------------------------------------------

  datatype Header = Header(epoch: nat, seqNo: nat, monotonicNs: int)

  class SensorHeaderFactory {
    const epoch: nat
    var nextSeq: nat
    var lastMonotonicNs: Option<int>

    constructor (epoch: nat)
      ensures this.epoch == epoch && nextSeq == 1 && lastMonotonicNs == None
    {
      this.epoch, nextSeq, lastMonotonicNs := epoch, 1, None;
    }

    /** `next`: no header when the capture time goes back within the stream. */
    method Next(captureNs: Option<int>, clockNs: int) returns (h: Option<Header>)
      modifies this
      ensures var captured := if captureNs.Some? then captureNs.value else clockNs;
        if old(lastMonotonicNs).Some? && captured < old(lastMonotonicNs).value then
          h == None && nextSeq == old(nextSeq) && lastMonotonicNs == old(lastMonotonicNs)
        else
          h == Some(Header(epoch, old(nextSeq), captured)) && nextSeq == old(nextSeq) + 1 && lastMonotonicNs == Some(captured)
    {
      var captured := if captureNs.Some? then captureNs.value else clockNs;
      if lastMonotonicNs.Some? && captured < lastMonotonicNs.value {
        return None;
      }
      h := Some(Header(epoch, nextSeq, captured));
      nextSeq := nextSeq + 1;
      lastMonotonicNs := Some(captured);
    }
  }

  // --- Reads ----------------------------------------------------------------------------

  /** One serial read; it may return nothing. */
  datatype Read = Read(started: nat, data: seq<Byte>, finished: nat)

  datatype Line = Line(baudrate: nat, timeoutNs: nat)

  /** `estimate_uart_observation_time`. */
  function Observed(line: Line, r: Read): Chunk
    requires line.baudrate > 0 && r.started <= r.finished
  {
    var half := (r.finished - r.started + 1) / 2;
    var wire := (|r.data| * 10_000_000_000 + line.baudrate - 1) / line.baudrate;
    var a: nat := if half >= line.timeoutNs then half else line.timeoutNs;
    var b: nat := if a >= wire then a else wire;
    Chunk(r.data, (r.started + r.finished) / 2, b)
  }

  /** The midpoint of the read, and the largest of half its window, the timeout and the time on the wire, each rounded up. */
  lemma ObservedMeans(line: Line, r: Read)
    requires line.baudrate > 0 && r.started <= r.finished
    ensures var c := Observed(line, r);
      && c.data == r.data && r.started <= c.receiptNs <= r.finished
      && 0 <= (r.finished - c.receiptNs) - (c.receiptNs - r.started) <= 1
      && 2 * c.uncertaintyNs >= r.finished - r.started && c.uncertaintyNs >= line.timeoutNs
      && c.uncertaintyNs * line.baudrate >= |r.data| * 10_000_000_000
      && (|| 2 * c.uncertaintyNs <= r.finished - r.started + 1 || c.uncertaintyNs == line.timeoutNs
          || (c.uncertaintyNs - 1) * line.baudrate < |r.data| * 10_000_000_000)
  {
    var bits := |r.data| * 10_000_000_000;
    RoundedUp(bits, line.baudrate);
    var wire, u := (bits + line.baudrate - 1) / line.baudrate, Observed(line, r).uncertaintyNs;
    Times(wire, u, line.baudrate);
  }

  lemma RoundedUp(n: nat, d: nat)
    requires d > 0
    ensures var q := (n + d - 1) / d; q * d >= n && (q - 1) * d < n
  {
    var q := (n + d - 1) / d;
    assert n + d - 1 == q * d + (n + d - 1) % d;
    assert (q - 1) * d == q * d - d;
  }

  lemma Times(a: nat, b: nat, d: nat)
    ensures a <= b ==> a * d <= b * d
  {
  }

  /** The host clock does not go back. */
  predicate ClockOk(rs: seq<Read>) {
    && (forall i | 0 <= i < |rs| :: rs[i].started <= rs[i].finished)
    && (forall i, j | 0 <= i < j < |rs| :: rs[i].finished <= rs[j].started)
  }

  predicate ChunksInOrder(cs: seq<Chunk>) {
    forall i, j | 0 <= i < j < |cs| :: cs[i].receiptNs <= cs[j].receiptNs
  }

  /** The chunks handed to the decoder: the reads that returned something. */
  function Chunks(line: Line, rs: seq<Read>): seq<Chunk>
    requires line.baudrate > 0 && ClockOk(rs)
  {
    if rs == [] then []
    else
      var front, last := Chunks(line, rs[..|rs| - 1]), rs[|rs| - 1];
      if last.data == [] then front else front + [Observed(line, last)]
  }

  lemma {:induction false} ChunkTimes(line: Line, rs: seq<Read>)
    requires line.baudrate > 0 && ClockOk(rs)
    ensures var cs := Chunks(line, rs);
      && ChunksInOrder(cs)
      && (forall c | c in cs :: rs != [] && c.receiptNs <= rs[|rs| - 1].finished)
  {
    if rs != [] {
      var front := rs[..|rs| - 1];
      assert forall i | 0 <= i < |front| :: front[i] == rs[i];
      ChunkTimes(line, front);
    }
  }

  lemma {:induction false} DataAppend(cs: seq<Chunk>, c: Chunk)
    ensures Data(cs + [c]) == Data(cs) + c.data
  {
    if cs == [] {
      assert cs + [c] == [c] && Data([c]) == c.data + Data([]);
    } else {
      DataAppend(cs[1..], c);
      assert (cs + [c])[1..] == cs[1..] + [c];
    }
  }

  lemma {:induction false} FeedAllAppend<F>(p: Parser<F>, maxBufferBytes: nat, st: State, cs: seq<Chunk>, c: Chunk)
    requires st.Consistent()
    ensures var before := FeedAll(p, maxBufferBytes, st, cs);
      var last := Feed(p, maxBufferBytes, before.0, c);
      FeedAll(p, maxBufferBytes, st, cs + [c]) == (last.0, before.1 + last.1)
    decreases |cs|
  {
    hide Feed;
    if cs == [] {
      assert cs + [c] == [c] && [c][1..] == [];
      var last := Feed(p, maxBufferBytes, st, c);
      assert FeedAll(p, maxBufferBytes, last.0, []) == (last.0, []);
      assert [] + last.1 == last.1 && last.1 + [] == last.1;
    } else {
      FeedAllAppend(p, maxBufferBytes, Feed(p, maxBufferBytes, st, cs[0]).0, cs[1..], c);
      assert (cs + [c])[1..] == cs[1..] + [c] && (cs + [c])[0] == cs[0];
      var first := Feed(p, maxBufferBytes, st, cs[0]);
      var rest := FeedAll(p, maxBufferBytes, first.0, cs[1..]);
      var last := Feed(p, maxBufferBytes, rest.0, c);
      assert first.1 + (rest.1 + last.1) == (first.1 + rest.1) + last.1;
    }
  }

  // --- The capture loop -----------------------------------------------------------------

  /** Within an epoch headers are numbered in order and time does not go back; an epoch starts again at one. */
  predicate HeadersOk(hs: seq<Header>) {
    forall i | 0 < i < |hs| ::
      if hs[i].epoch == hs[i - 1].epoch then
        hs[i].seqNo == hs[i - 1].seqNo + 1 && hs[i].monotonicNs >= hs[i - 1].monotonicNs
      else hs[i].epoch == hs[i - 1].epoch + 1 && hs[i].seqNo == 1
  }

  predicate FramesInOrder<F>(frames: seq<Frame<F>>) {
    forall i, j | 0 <= i < j < |frames| :: frames[i].receiptNs <= frames[j].receiptNs
  }

  lemma FramesSorted<F>(p: Parser<F>, maxBufferBytes: nat, cs: seq<Chunk>)
    requires ChunksInOrder(cs)
    ensures FramesInOrder(FeedAll(p, maxBufferBytes, START, cs).1)
  {
    FramesInReceiptOrder(p, maxBufferBytes, cs);
  }

  /** The frames handed on when the chunk `c` follows `done` and only its first `emitted` frames are handed on. */
  function FramesUpTo<F>(p: Parser<F>, maxBufferBytes: nat, done: seq<Chunk>, c: Chunk, emitted: Option<nat>): seq<Frame<F>> {
    var before, after := FeedAll(p, maxBufferBytes, START, done), FeedAll(p, maxBufferBytes, START, done + [c]);
    if emitted.None? then after.1
    else before.1 + Feed(p, maxBufferBytes, before.0, c).1[..Min(emitted.value, |Feed(p, maxBufferBytes, before.0, c).1|)]
  }

  /** The frames handed on in all. */
  function FramesAtEnd<F>(p: Parser<F>, maxBufferBytes: nat, line: Line, rs: seq<Read>, cut: Option<Cut>): seq<Frame<F>>
    requires line.baudrate > 0 && CutOk(rs, cut)
  {
    if cut.Some? && cut.value.at.Counted? then
      assert (rs + [cut.value.read])[|rs|] == cut.value.read;
      FramesUpTo(p, maxBufferBytes, Chunks(line, rs), Observed(line, cut.value.read), cut.value.at.emitted)
    else FeedAll(p, maxBufferBytes, START, Chunks(line, rs)).1
  }

  function Numbers<F>(number: F -> int, frames: seq<Frame<F>>): seq<int> {
    seq(|frames|, i requires 0 <= i < |frames| => number(frames[i].body))
  }

  lemma {:induction false} GapAppend(previous: Option<int>, ns: seq<int>, n: int)
    ensures var last := if ns == [] then previous else Some(ns[|ns| - 1]);
      && GapTotal(previous, ns + [n]) == GapTotal(previous, ns) + Classify(last, n).0
      && Discontinuities(previous, ns + [n]) == Discontinuities(previous, ns) + if Discontinuity(Classify(last, n).1) then 1 else 0
    decreases |ns|
  {
    hide Classify;
    if ns == [] {
      assert ns + [n] == [n];
      assert GapTotal(Some(n), []) == 0 && Discontinuities(Some(n), []) == 0;
    } else {
      GapAppend(Some(ns[0]), ns[1..], n);
      assert (ns + [n])[1..] == ns[1..] + [n];
    }
  }

  /** The index record of a read. */
  function ChunkLine(meta: Index.Metadata, line: Line, chunkSeq: nat, offset: nat, r: Read): Index.Line
    requires line.baudrate > 0 && r.started <= r.finished
  {
    var c := Observed(line, r);
    Index.Record(true, Some(Index.INDEX_VERSION), Some(meta), Index.ChunkBody(Index.ChunkRecord(
      Some(chunkSeq), Some(offset), Some(|r.data|), Some(r.started), Some(r.finished), Some(c.receiptNs), Some(c.uncertaintyNs))))
  }

  /** The index of a sequence of reads; a read that returned nothing has no record. */
  function ChunkLines(meta: Index.Metadata, line: Line, rs: seq<Read>): seq<Index.Line>
    requires line.baudrate > 0 && ClockOk(rs)
  {
    if rs == [] then []
    else
      var front, last := rs[..|rs| - 1], rs[|rs| - 1];
      var before := ChunkLines(meta, line, front);
      if last.data == [] then before
      else before + [ChunkLine(meta, line, |before| + 1, |Data(Chunks(line, front))|, last)]
  }

  function EndLine(meta: Index.Metadata, chunks: nat, rawBytes: nat, digest: string, frames: nat, ended: nat, why: string): Index.Line {
    Index.Record(true, Some(Index.INDEX_VERSION), Some(meta), Index.EndBody(Index.EndRecord(
      Some(chunks), Some(rawBytes), Some(digest), Some(frames), Some(ended), Some(why))))
  }

  /** The index of any reads is in place, and ends no later than the last read. */
  lemma {:induction false} ChunkLinesInPlace(meta: Index.Metadata, line: Line, rs: seq<Read>)
    requires line.baudrate > 0 && ClockOk(rs)
    ensures var ls := ChunkLines(meta, line, rs);
      && Index.ChunksInPlace(ls, meta)
      && Index.BytesBefore(ls, |ls|) == |Data(Chunks(line, rs))|
      && (ls != [] ==> rs != [] && EndsBefore(ls, rs[|rs| - 1].finished))
  {
    if rs != [] {
      var front, last := rs[..|rs| - 1], rs[|rs| - 1];
      assert ClockOk(front);
      ChunkLinesInPlace(meta, line, front);
      if last.data != [] {
        DataAppend(Chunks(line, front), Observed(line, last));
        hide Chunks, Data, Observed;
        var before := ChunkLines(meta, line, front);
        AppendInPlace(meta, line, before, last, |Data(Chunks(line, front))|);
      }
    }
  }

  predicate EndsBefore(ls: seq<Index.Line>, ns: nat) {
    ls != [] ==> Index.IsChunk(ls[|ls| - 1]) && ls[|ls| - 1].body.chunk.readFinished.Some?
                 && ls[|ls| - 1].body.chunk.readFinished.value <= ns
  }

  lemma AppendInPlace(meta: Index.Metadata, line: Line, before: seq<Index.Line>, r: Read, offset: nat)
    requires line.baudrate > 0 && r.started <= r.finished && r.data != []
    requires Index.ChunksInPlace(before, meta) && Index.BytesBefore(before, |before|) == offset
    requires EndsBefore(before, r.started)
    ensures var l := ChunkLine(meta, line, |before| + 1, offset, r);
      Index.ChunksInPlace(before + [l], meta) && Index.BytesBefore(before + [l], |before| + 1) == offset + |r.data|
  {
    var l := ChunkLine(meta, line, |before| + 1, offset, r);
    var ls := before + [l];
    LastInPlace(meta, line, before, r, offset);
    LineInForm(meta, line, |before| + 1, offset, r);
    hide Index.ChunkInPlace, Index.InForm, Index.BytesBefore, ChunkLine, EndsBefore;
    assert ls[..|before|] == before && ls[|before|] == l;
    forall i | 0 <= i < |before| ensures Index.ChunkInPlace(ls, i) && Index.InForm(ls[i], meta) {
      Index.InPlaceInPrefix(ls, |before|, i);
      assert Index.ChunkInPlace(before, i) && Index.InForm(before[i], meta);
    }
  }

  /** The record of the next read is in place behind those before. */
  lemma LastInPlace(meta: Index.Metadata, line: Line, before: seq<Index.Line>, r: Read, offset: nat)
    requires line.baudrate > 0 && r.started <= r.finished && r.data != []
    requires Index.BytesBefore(before, |before|) == offset && EndsBefore(before, r.started)
    ensures var ls := before + [ChunkLine(meta, line, |before| + 1, offset, r)];
      Index.ChunkInPlace(ls, |before|) && Index.BytesBefore(ls, |before| + 1) == offset + |r.data|
  {
    var ls := before + [ChunkLine(meta, line, |before| + 1, offset, r)];
    assert ls[..|before|] == before;
    Index.BytesBeforeInPrefix(ls, |before|, |before|);
    assert before != [] ==> ls[|before| - 1] == before[|before| - 1];
    assert ls[|before|].body.chunk.midpoint == Some((r.started + r.finished) / 2);
  }

  lemma LineInForm(meta: Index.Metadata, line: Line, chunkSeq: nat, offset: nat, r: Read)
    requires line.baudrate > 0 && r.started <= r.finished
    ensures Index.InForm(ChunkLine(meta, line, chunkSeq, offset, r), meta)
  {
  }

  // --- The books of the loop ------------------------------------------------------------

  /** The raw file, what the digest has seen, the two counters, the index lines, and whether the last line lacks its end. */
  datatype Books = Books(
    raw: seq<Byte>, hashed: seq<Byte>, chunkSeq: nat, rawBytes: nat, lines: seq<Index.Line>, torn: bool)

  /** The books after whole iterations. */
  function BooksOf(meta: Index.Metadata, line: Line, rs: seq<Read>): Books
    requires line.baudrate > 0 && ClockOk(rs)
  {
    var raw, ls := Data(Chunks(line, rs)), ChunkLines(meta, line, rs);
    Books(raw, raw, |ls|, |raw|, ls, false)
  }

  /**
   How far the iteration that handles one read got when it was left: `k` bytes
   in the raw file, digest updated, chunk numbered, index line begun, index line
   ended, bytes counted and the first frames of the chunk handed on.
   */
  datatype Progress =
    | Raw(k: nat) | Hashed | Numbered | LineBegun | LineEnded
    | Counted(emitted: Option<nat>)

  predicate Possible(r: Read, p: Progress) {
    r.data != [] && (p.Raw? ==> p.k <= |r.data|)
  }

  /** The raw file holds bytes of the chunk that are not counted yet. */
  predicate Midway(p: Progress) {
    match p
    case Raw(k) => k > 0
    case Counted(_) => false
    case _ => true
  }

  /** The books when the iteration is left at `p`. */
  function Entered(meta: Index.Metadata, line: Line, b: Books, r: Read, p: Progress): Books
    requires line.baudrate > 0 && r.started <= r.finished && Possible(r, p)
  {
    var written := b.(raw := b.raw + r.data, hashed := b.hashed + r.data);
    var numbered := written.(chunkSeq := b.chunkSeq + 1);
    var listed := numbered.(lines := b.lines + [ChunkLine(meta, line, numbered.chunkSeq, b.rawBytes, r)]);
    match p
    case Raw(k) => b.(raw := b.raw + r.data[..k])
    case Hashed => written
    case Numbered => numbered
    case LineBegun => numbered.(torn := true)
    case LineEnded => listed
    case Counted(_) => listed.(rawBytes := b.rawBytes + |r.data|)
  }

  /** SHA-256: some function of the bytes. */
  datatype Hash = Hash(digest: seq<Byte> -> string)
  {
    function Of(bytes: seq<Byte>): string {
      digest(bytes)
    }
  }

  /**
   The index once the footer is written.  A footer that follows an unfinished
   record shares its line, and no such line holds one JSON object: `merged`.
   */
  function IndexAtEnd(b: Books, meta: Index.Metadata, hash: Hash, frames: nat, ended: nat, why: string, merged: Index.Line)
    : seq<Index.Line>
  {
    b.lines + [if b.torn then merged else EndLine(meta, b.chunkSeq, b.rawBytes, hash.Of(b.hashed), frames, ended, why)]
  }

  /** The interrupt that ended the loop, if one did: the read it cut short and how far its iteration got. */
  datatype Cut = Cut(read: Read, at: Progress)

  predicate CutOk(rs: seq<Read>, cut: Option<Cut>) {
    && ClockOk(rs)
    && (cut.Some? ==> ClockOk(rs + [cut.value.read]) && Possible(cut.value.read, cut.value.at))
  }

  predicate EndedAfter(rs: seq<Read>, cut: Option<Cut>, ended: nat) {
    && (rs != [] ==> rs[|rs| - 1].finished <= ended)
    && (cut.Some? ==> cut.value.read.finished <= ended)
  }

  function BooksAtEnd(meta: Index.Metadata, line: Line, rs: seq<Read>, cut: Option<Cut>): Books
    requires line.baudrate > 0 && CutOk(rs, cut)
  {
    var b := BooksOf(meta, line, rs);
    if cut.None? then b
    else
      assert (rs + [cut.value.read])[|rs|] == cut.value.read;
      Entered(meta, line, b, cut.value.read, cut.value.at)
  }

  /** The inspector finds no fault with the raw file and its index. */
  predicate Healthy(raw: seq<Byte>, hash: Hash, index: seq<Index.Line>) {
    Index.Inspection(Index.RawFile(Some(|raw|), Some(hash.Of(raw))), Some(index)) == []
  }

  /** The index of whole iterations is one the inspector reports healthy. */
  lemma WholeIterationsHealthy(meta: Index.Metadata, line: Line, rs: seq<Read>, hash: Hash, frames: nat, ended: nat, why: string,
                               merged: Index.Line)
    requires line.baudrate > 0 && ClockOk(rs) && (rs != [] ==> rs[|rs| - 1].finished <= ended)
    requires Index.IsDigest(hash.Of(BooksOf(meta, line, rs).raw)) && why != ""
    ensures var b := BooksOf(meta, line, rs); Healthy(b.raw, hash, IndexAtEnd(b, meta, hash, frames, ended, why, merged))
  {
    hide Index.IsDigest, Data, Chunks, Index.Inspection;
    ChunkLinesInPlace(meta, line, rs);
    var ls, raw := ChunkLines(meta, line, rs), Data(Chunks(line, rs));
    var digest := hash.Of(raw);
    var index := ls + [EndLine(meta, |ls|, |raw|, digest, frames, ended, why)];
    assert index[..|ls|] == ls;
    Index.BytesBeforeInPrefix(index, |ls|, |ls|);
    assert Index.EndInPlace(index, |ls|);
    Index.FromPrefix(index, meta);
    Index.WellIndexedIsHealthy(Index.RawFile(Some(|raw|), Some(digest)), index, meta);
  }

  /** An iteration left once its bytes are counted has entered the chunk completely. */
  lemma CountedIsWhole(meta: Index.Metadata, line: Line, rs: seq<Read>, r: Read, emitted: Option<nat>)
    requires line.baudrate > 0 && ClockOk(rs) && ClockOk(rs + [r]) && r.data != []
    ensures r.started <= r.finished
    ensures Entered(meta, line, BooksOf(meta, line, rs), r, Counted(emitted)) == BooksOf(meta, line, rs + [r])
  {
    hide Chunks, Data, ChunkLines, ChunkLine, Observed, ClockOk, ChunksInOrder;
    OneMoreRead(meta, line, rs, r);
  }

  /** An index whose last line is no footer, or a footer that miscounts the records or the file, is not healthy. */
  lemma WrongEnd(raw: Index.RawFile, ls: seq<Index.Line>, last: Index.Line)
    requires last.Record? && last.body.EndBody? ==>
               raw.size != Some(Index.BytesBefore(ls, |ls|)) || last.body.end.rawBytes != Some(Index.BytesBefore(ls, |ls|))
    ensures Index.Inspection(raw, Some(ls + [last])) != []
  {
    hide Index.Inspection, Index.BytesBefore, Index.IsDigest, Index.ChunkInPlace, Index.InForm;
    var index := ls + [last];
    assert index[..|ls|] == ls;
    Index.BytesBeforeInPrefix(index, |ls|, |ls|);
    Index.HealthyIff(raw, index);
    if m :| Index.WellIndexed(raw, index, m) {
      assert false;
    }
  }

  /** What an iteration left midway gets wrong. */
  lemma MidwayUnhealthy(meta: Index.Metadata, line: Line, rs: seq<Read>, cut: Cut, hash: Hash, frames: nat, ended: nat, why: string,
                        merged: Index.Line)
    requires line.baudrate > 0 && CutOk(rs, Some(cut)) && Midway(cut.at) && !merged.Record?
    ensures var b := BooksAtEnd(meta, line, rs, Some(cut));
      !Healthy(b.raw, hash, IndexAtEnd(b, meta, hash, frames, ended, why, merged))
  {
    var b := BooksAtEnd(meta, line, rs, Some(cut));
    ChunkLinesInPlace(meta, line, rs);
    CountedIsWhole(meta, line, rs, cut.read, None);
    ChunkLinesInPlace(meta, line, rs + [cut.read]);
    hide ChunkLines, Data, Chunks, ChunkLine, Index.Inspection, Index.BytesBefore, Index.ChunksInPlace, ClockOk, EndsBefore;
    WrongEnd(Index.RawFile(Some(|b.raw|), Some(hash.Of(b.raw))), b.lines,
             if b.torn then merged else EndLine(meta, b.chunkSeq, b.rawBytes, hash.Of(b.hashed), frames, ended, why));
  }

  /**
   One such stop: the first byte ever read is in the raw file and its record in
   the index when the interrupt arrives, and the footer counts no bytes.
   */
  lemma StoppedBeforeCounting(meta: Index.Metadata, hash: Hash, merged: Index.Line)
    ensures var b := BooksAtEnd(meta, Line(921600, 0), [], Some(Cut(Read(0, [2], 10), LineEnded)));
      var index := IndexAtEnd(b, meta, hash, 0, 20, "keyboard_interrupt", merged);
      && !b.torn && b.raw == b.hashed && |index| == 2
      && Index.FooterSizeMismatch in Index.Inspection(Index.RawFile(Some(|b.raw|), Some(hash.Of(b.raw))), Some(index))
  {
    var line, r := Line(921600, 0), Read(0, [2], 10);
    var chunk, footer := ChunkLine(meta, line, 1, 0, r), EndLine(meta, 1, 0, hash.Of([2]), 0, 20, "keyboard_interrupt");
    assert BooksAtEnd(meta, line, [], Some(Cut(r, LineEnded))) == Books([2], [2], 1, 0, [chunk], false) by {
      assert [] + r.data == [2] && [] + [chunk] == [chunk];
    }
    assert [chunk] + [footer] == [chunk, footer] && [chunk, footer][..1] == [chunk];
    FooterSize(chunk, footer);
    hide Index.LineErrors, Index.LineTally, BooksAtEnd;
  }

  lemma FooterSize(chunk: Index.Line, footer: Index.Line)
    requires footer.Record? && footer.body.EndBody? && footer.body.end.rawBytes == Some(0)
    ensures Index.Scan([chunk, footer]).footerBytes == Some(0)
  {
    assert [chunk, footer][..1] == [chunk];
    hide Index.ChunkTally, Index.IsDigest;
  }

  /**
   An index that `capture_radar_uart` completes is one the inspector reports
   healthy if and only if the loop was not interrupted while the raw file held
   bytes of a chunk that were not counted yet.
   */
  lemma CompletedIndexHealthyIff(meta: Index.Metadata, line: Line, rs: seq<Read>, cut: Option<Cut>, hash: Hash, frames: nat, ended: nat,
                                 why: string, merged: Index.Line)
    requires line.baudrate > 0 && CutOk(rs, cut) && EndedAfter(rs, cut, ended) && why != "" && !merged.Record?
    requires Index.IsDigest(hash.Of(BooksAtEnd(meta, line, rs, cut).hashed))
    ensures var b := BooksAtEnd(meta, line, rs, cut);
      Healthy(b.raw, hash, IndexAtEnd(b, meta, hash, frames, ended, why, merged)) <==> !(cut.Some? && Midway(cut.value.at))
  {
    hide Healthy, Index.IsDigest, Data, Chunks, ChunkLines, IndexAtEnd, ClockOk;
    if cut.Some? && Midway(cut.value.at) {
      MidwayUnhealthy(meta, line, rs, cut.value, hash, frames, ended, why, merged);
    } else if cut.Some? && cut.value.at.Counted? {
      CountedIsWhole(meta, line, rs, cut.value.read, cut.value.at.emitted);
      WholeIterationsHealthy(meta, line, rs + [cut.value.read], hash, frames, ended, why, merged);
    } else {
      assert cut.Some? ==> Data(Chunks(line, rs)) + cut.value.read.data[..0] == Data(Chunks(line, rs));
      WholeIterationsHealthy(meta, line, rs, hash, frames, ended, why, merged);
    }
  }

  /** The counters and outputs of the loop. */
  class CaptureSession<F(0)> {
    const number: F -> int
    const meta: Index.Metadata
    const line: Line
    var headers: SensorHeaderFactory
    var previousFrame: Option<int>
    var gaps: int
    var discontinuities: nat
    var rawFile: seq<Byte>
    var hashed: seq<Byte>        // what the digest has been given
    var chunkSeq: nat
    var rawBytes: nat
    var indexLines: seq<Index.Line>
    var torn: bool               // the index ends in an unfinished record
    var frames: seq<Frame<F>>
    var written: seq<Header>

    /** Everything emitted so far has its header, its gap and its time. */
    ghost predicate Valid()
      reads this, headers
    {
      line.baudrate > 0 && CountsOk(frames) && StampsOk() && FactoryOk()
    }

    ghost function Ledger(): Books
      reads this
    {
      Books(rawFile, hashed, chunkSeq, rawBytes, indexLines, torn)
    }

    ghost predicate CountsOk(counted: seq<Frame<F>>)
      reads this
    {
      && gaps == GapTotal(None, Numbers(number, counted))
      && discontinuities == Discontinuities(None, Numbers(number, counted))
      && previousFrame == (if counted == [] then None else Some(number(counted[|counted| - 1].body)))
    }

    ghost predicate StampsOk()
      reads this
    {
      && |written| == |frames| && HeadersOk(written)
      && (forall i | 0 <= i < |frames| :: written[i].monotonicNs == frames[i].receiptNs)
      && (forall i | 0 < i < |frames| ::
            written[i].epoch == written[i - 1].epoch + if Reset(frames[i - 1], frames[i]) then 1 else 0)
    }

    /** The frame counter was reset between the two frames, or they came out of order. */
    predicate Reset(a: Frame<F>, b: Frame<F>) {
      Classify(Some(number(a.body)), number(b.body)).1.ResetOrOutOfOrder?
    }

    ghost predicate FactoryOk()
      reads this, headers
    {
      if written == [] then headers.epoch == 0 && headers.nextSeq == 1 && headers.lastMonotonicNs == None
      else
        var last := written[|written| - 1];
        headers.epoch == last.epoch && headers.nextSeq == last.seqNo + 1 && headers.lastMonotonicNs == Some(last.monotonicNs)
    }

    constructor (number: F -> int, meta: Index.Metadata, line: Line)
      requires line.baudrate > 0
      ensures Valid() && frames == [] && Ledger() == Books([], [], 0, 0, [], false) && fresh(headers)
      ensures this.number == number && this.meta == meta && this.line == line
    {
      this.number, this.meta, this.line := number, meta, line;
      headers := new SensorHeaderFactory(0);
      previousFrame, gaps, discontinuities := None, 0, 0;
      rawFile, hashed, chunkSeq, rawBytes, indexLines, torn := [], [], 0, 0, [], false;
      frames, written := [], [];
    }

    /** One decoded frame: classified, given a header, handed on.  Receipt times that do not go back never fail. */
    method EmitFrame(frame: Frame<F>)
      requires Valid()
      requires frames != [] ==> frames[|frames| - 1].receiptNs <= frame.receiptNs
      modifies this, headers
      ensures Valid() && frames == old(frames) + [frame]
      ensures Ledger() == old(Ledger())
      ensures headers == old(headers) || fresh(headers)
    {
      hide GapTotal, Discontinuities, HeadersOk, Numbers;
      var reset := CountFrame(frame);
      if reset {
        headers := new SensorHeaderFactory(headers.epoch + 1);
      }
      StampFrame(frame, reset);
    }

    method CountFrame(frame: Frame<F>) returns (reset: bool)
      requires CountsOk(frames)
      modifies this`gaps, this`discontinuities, this`previousFrame
      ensures CountsOk(frames + [frame])
      ensures reset == (frames != [] && Reset(frames[|frames| - 1], frame))
    {
      var n := number(frame.body);
      GapAppend(None, Numbers(number, frames), n);
      assert Numbers(number, frames + [frame]) == Numbers(number, frames) + [n];
      hide GapTotal, Discontinuities;
      var (gap, transition) := Classify(previousFrame, n);
      if Discontinuity(transition) {
        discontinuities := discontinuities + 1;
      }
      reset := transition.ResetOrOutOfOrder?;
      previousFrame := Some(n);
      gaps := gaps + gap;
    }

    method StampFrame(frame: Frame<F>, ghost reset: bool)
      requires StampsOk() && reset == (frames != [] && Reset(frames[|frames| - 1], frame))
      requires if reset then headers.epoch == written[|written| - 1].epoch + 1 && headers.nextSeq == 1 && headers.lastMonotonicNs == None
               else FactoryOk()
      requires frames != [] ==> frames[|frames| - 1].receiptNs <= frame.receiptNs
      modifies this`written, this`frames, headers
      ensures StampsOk() && FactoryOk() && frames == old(frames) + [frame]
    {
      hide Reset;
      ghost var hs := written;
      var h := headers.Next(Some(frame.receiptNs), 0);
      assert h.Some?;
      written := written + [h.value];
      frames := frames + [frame];
      assert forall i | 0 <= i < |hs| :: written[i] == hs[i];
    }

    /** One chunk entered in the books, step by step, up to `p`. */
    method RecordChunk(r: Read, p: Progress)
      requires line.baudrate > 0 && r.started <= r.finished && Possible(r, p)
      modifies this`rawFile, this`hashed, this`chunkSeq, this`rawBytes, this`indexLines, this`torn
      ensures Ledger() == Entered(meta, line, old(Ledger()), r, p)
    {
      hide ChunkLine;
      var chunkOffset := rawBytes;
      if p.Raw? {
        rawFile := rawFile + r.data[..p.k];
        return;
      }
      rawFile := rawFile + r.data;
      hashed := hashed + r.data;
      if p.Hashed? {
        return;
      }
      chunkSeq := chunkSeq + 1;
      if p.Numbered? {
        return;
      }
      if p.LineBegun? {
        torn := true;
        return;
      }
      indexLines := indexLines + [ChunkLine(meta, line, chunkSeq, chunkOffset, r)];
      if p.LineEnded? {
        return;
      }
      rawBytes := rawBytes + |r.data|;
    }

    /** Decode one chunk and hand on its frames, all of them or the first `emitted`. */
    method EmitAll(decoder: TiMmwaveStreamDecoder<F>, ghost done: seq<Chunk>, c: Chunk, emitted: Option<nat>)
      requires Valid() && decoder.Valid()
      requires (decoder.St(), frames) == FeedAll(decoder.parser, decoder.maxBufferBytes, START, done)
      requires ChunksInOrder(done + [c])
      modifies this, headers, decoder
      ensures Valid() && decoder.Valid() && Ledger() == old(Ledger()) && (headers == old(headers) || fresh(headers))
      ensures decoder.St() == FeedAll(decoder.parser, decoder.maxBufferBytes, START, done + [c]).0
      ensures frames == FramesUpTo(decoder.parser, decoder.maxBufferBytes, done, c, emitted)
    {
      hide FeedAll, Feed, Valid;
      ghost var p, n := decoder.parser, decoder.maxBufferBytes;
      FeedAllAppend(p, n, START, done, c);
      FramesSorted(p, n, done + [c]);
      ghost var before := frames;
      var out := decoder.FeedChunk(c);
      ghost var all := before + out;
      assert all == FeedAll(p, n, START, done + [c]).1;
      var count := if emitted.Some? then Min(emitted.value, |out|) else |out|;
      for j := 0 to count
        invariant Valid() && decoder.Valid() && frames == before + out[..j]
        invariant decoder.St() == FeedAll(p, n, START, done + [c]).0
        invariant Ledger() == old(Ledger()) && (headers == old(headers) || fresh(headers))
      {
        assert out[..j + 1] == out[..j] + [out[j]];
        assert frames != [] ==> frames[|frames| - 1] == all[|frames| - 1] && out[j] == all[|frames|];
        EmitFrame(out[j]);
      }
      assert emitted.None? ==> before + out[..count] == all;
    }

    /**
     The loop of `capture_radar_uart` over the reads `rs`, ended by an interrupt
     if `cut` says so, then the footer.
     */
    method Capture(decoder: TiMmwaveStreamDecoder<F>, rs: seq<Read>, cut: Option<Cut>, hash: Hash, ended: nat, why: string,
                   merged: Index.Line)
      requires Handled(decoder, []) && line.baudrate > 0
      requires CutOk(rs, cut) && EndedAfter(rs, cut, ended) && why != "" && !merged.Record?
      requires Index.IsDigest(hash.Of(BooksAtEnd(meta, line, rs, cut).hashed))
      modifies this, headers, decoder
      ensures Valid()
      ensures rawFile == BooksAtEnd(meta, line, rs, cut).raw
      ensures indexLines == IndexAtEnd(BooksAtEnd(meta, line, rs, cut), meta, hash, |frames|, ended, why, merged)
      ensures frames == FramesAtEnd(decoder.parser, decoder.maxBufferBytes, line, rs, cut)
      ensures Healthy(rawFile, hash, indexLines) <==> !(cut.Some? && Midway(cut.value.at))
    {
      hide *;
      ReadThrough(decoder, rs, cut);
      CompletedIndexHealthyIff(meta, line, rs, cut, hash, |frames|, ended, why, merged);
      WriteFooter(hash, ended, why, merged);
    }

    /** A session and a decoder that have just been made have handled nothing. */
    lemma NothingHandled(decoder: TiMmwaveStreamDecoder<F>)
      requires Valid() && frames == [] && Ledger() == Books([], [], 0, 0, [], false)
      requires decoder.Valid() && decoder.St() == START
      ensures Handled(decoder, []) && line.baudrate > 0
    {
    }

    method WriteFooter(hash: Hash, ended: nat, why: string, merged: Index.Line)
      requires Valid()
      modifies this`indexLines
      ensures Valid() && indexLines == IndexAtEnd(old(Ledger()), meta, hash, |frames|, ended, why, merged)
    {
      var footer := EndLine(meta, chunkSeq, rawBytes, hash.Of(hashed), |frames|, ended, why);
      indexLines := indexLines + [if torn then merged else footer];
    }

    /** Everything up to the footer. */
    method ReadThrough(decoder: TiMmwaveStreamDecoder<F>, rs: seq<Read>, cut: Option<Cut>)
      requires Handled(decoder, []) && CutOk(rs, cut)
      modifies this, headers, decoder
      ensures Valid() && Ledger() == BooksAtEnd(meta, line, rs, cut) && rawFile == Ledger().raw
      ensures frames == FramesAtEnd(decoder.parser, decoder.maxBufferBytes, line, rs, cut)
    {
      hide FeedAll, HeadersOk, GapTotal, Discontinuities, Numbers, ClockOk, Chunks, Entered, BooksOf, FramesUpTo, Possible;
      ReadAll(decoder, rs);
      if cut.Some? {
        LastRead(decoder, rs, cut.value);
      }
    }

    /** The iteration that the interrupt leaves. */
    method LastRead(decoder: TiMmwaveStreamDecoder<F>, ghost rs: seq<Read>, cut: Cut)
      requires Handled(decoder, rs) && CutOk(rs, Some(cut))
      modifies this, headers, decoder
      ensures Valid() && Ledger() == BooksAtEnd(meta, line, rs, Some(cut))
      ensures frames == FramesAtEnd(decoder.parser, decoder.maxBufferBytes, line, rs, Some(cut))
    {
      hide FeedAll, HeadersOk, GapTotal, Discontinuities, Numbers, Chunks, ChunkLines, Data, BooksOf, ClockOk, FramesUpTo, Entered;
      OneMoreRead(meta, line, rs, cut.read);
      RecordChunk(cut.read, cut.at);
      if cut.at.Counted? {
        EmitAll(decoder, Chunks(line, rs), Observed(line, cut.read), cut.at.emitted);
      }
    }

    /** Exactly the reads `before` have been handled, each by a whole iteration. */
    ghost predicate Handled(decoder: TiMmwaveStreamDecoder<F>, before: seq<Read>)
      reads this, headers, decoder
    {
      && Valid() && decoder.Valid() && ClockOk(before)
      && Ledger() == BooksOf(meta, line, before)
      && (decoder.St(), frames) == FeedAll(decoder.parser, decoder.maxBufferBytes, START, Chunks(line, before))
    }

    /** The whole iterations. */
    method ReadAll(decoder: TiMmwaveStreamDecoder<F>, rs: seq<Read>)
      requires Handled(decoder, []) && ClockOk(rs)
      modifies this, headers, decoder
      ensures Handled(decoder, rs) && (headers == old(headers) || fresh(headers))
    {
      assert rs[..0] == [];
      hide Handled, ClockOk;
      for i := 0 to |rs|
        invariant Handled(decoder, rs[..i]) && (headers == old(headers) || fresh(headers))
      {
        assert rs[..i + 1] == rs[..i] + [rs[i]];
        ClockPrefix(rs, i + 1);
        HandleRead(decoder, rs[..i], rs[i]);
      }
      assert rs[..|rs|] == rs;
    }

    method HandleRead(decoder: TiMmwaveStreamDecoder<F>, ghost before: seq<Read>, r: Read)
      requires Handled(decoder, before) && ClockOk(before + [r])
      modifies this, headers, decoder
      ensures Handled(decoder, before + [r]) && (headers == old(headers) || fresh(headers))
    {
      hide FeedAll, HeadersOk, GapTotal, Discontinuities, Numbers, Chunks, ClockOk, BooksOf;
      if r.data == [] {
        SkipRead(meta, line, before, r);
      } else {
        HandleChunk(decoder, before, r);
      }
    }

    method HandleChunk(decoder: TiMmwaveStreamDecoder<F>, ghost before: seq<Read>, r: Read)
      requires Handled(decoder, before) && r.data != [] && ClockOk(before + [r])
      modifies this, headers, decoder
      ensures Handled(decoder, before + [r]) && (headers == old(headers) || fresh(headers))
    {
      hide FeedAll, HeadersOk, GapTotal, Discontinuities, Numbers, Chunks, ChunkLines, Data, ClockOk, BooksOf, Entered;
      CountedIsWhole(meta, line, before, r, None);
      OneMoreRead(meta, line, before, r);
      RecordChunk(r, Counted(None));
      EmitAll(decoder, Chunks(line, before), Observed(line, r), None);
    }
  }

  lemma OneMoreRead(meta: Index.Metadata, line: Line, before: seq<Read>, r: Read)
    requires line.baudrate > 0 && ClockOk(before) && ClockOk(before + [r]) && r.data != []
    ensures r.started <= r.finished
    ensures var cs := Chunks(line, before + [r]);
      && cs == Chunks(line, before) + [Observed(line, r)]
      && Data(cs) == Data(Chunks(line, before)) + r.data
      && ChunksInOrder(cs)
    ensures ChunkLines(meta, line, before + [r]) == ChunkLines(meta, line, before)
      + [ChunkLine(meta, line, |ChunkLines(meta, line, before)| + 1, |Data(Chunks(line, before))|, r)]
  {
    var all := before + [r];
    assert all[..|before|] == before && all[|before|] == r;
    ChunkTimes(line, all);
    DataAppend(Chunks(line, before), Observed(line, r));
    hide Data, ChunkLine;
  }

  lemma ClockPrefix(rs: seq<Read>, n: nat)
    requires ClockOk(rs) && n <= |rs|
    ensures ClockOk(rs[..n])
  {
  }

  lemma SkipRead(meta: Index.Metadata, line: Line, before: seq<Read>, r: Read)
    requires line.baudrate > 0 && ClockOk(before) && ClockOk(before + [r])
    ensures r.data == [] ==> Chunks(line, before + [r]) == Chunks(line, before)
                             && BooksOf(meta, line, before + [r]) == BooksOf(meta, line, before)
  {
    assert (before + [r])[..|before|] == before;
  }
}
