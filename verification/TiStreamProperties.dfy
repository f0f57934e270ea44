/**
 What the stream decoder promises about a whole capture: every byte is
 accounted for, frames carry the receipt time of the chunk that delivered
 their first byte, and on a clean stream the chunking does not matter.
 */
module TiStreamProperties {
  import opened Wrappers
  import opened TiStreamDecoder

  function Data(chunks: seq<Chunk>): seq<Byte> {
    if chunks == [] then [] else chunks[0].data + Data(chunks[1..])
  }

  function Arrivals(chunks: seq<Chunk>): (r: seq<Segment>)
    ensures NonEmptySegments(r) && Total(r) == |Data(chunks)|
  {
    if chunks == [] then []
    else
      TotalAppend(Arrival(chunks[0]), Arrivals(chunks[1..]));
      Arrival(chunks[0]) + Arrivals(chunks[1..])
  }

  // --- Accounting on an arbitrary stream -------------------------------------

  /** The bytes [start, end) of the stream were accepted as one packet. */
  datatype Span = Span(start: nat, end: nat)

  function SpanBytes(spans: seq<Span>): int {
    if spans == [] then 0 else spans[0].end - spans[0].start + SpanBytes(spans[1..])
  }

  lemma {:induction false} SpanBytesAppend(a: seq<Span>, b: seq<Span>)
    ensures SpanBytes(a + b) == SpanBytes(a) + SpanBytes(b)
  {
    if a == [] {
      assert a + b == b;
    } else {
      SpanBytesAppend(a[1..], b);
      assert (a + b)[1..] == a[1..] + b;
    }
  }

  /** Frame `f` was parsed from its span and is stamped with the arrival of its first byte. */
  ghost predicate FrameFrom<F>(p: Parser<F>, stream: seq<Byte>, arrivals: seq<Segment>, f: Frame<F>, s: Span)
  {
    && s.start < s.end <= |stream| && Total(arrivals) == |stream|
    && p.parse(stream[s.start..s.end]) == Some(f.body)
    && f.receiptNs == HolderOf(arrivals, s.start).receiptNs
    && f.uncertaintyNs == HolderOf(arrivals, s.start).uncertaintyNs
  }

  /** The spans are disjoint, in stream order, inside [lo, hi). */
  predicate Ordered(spans: seq<Span>, lo: nat, hi: nat) {
    && (forall i | 0 <= i < |spans| :: lo <= spans[i].start < spans[i].end <= hi)
    && (forall i, j | 0 <= i < j < |spans| :: spans[i].end <= spans[j].start)
  }

  ghost predicate Placed<F>(
    p: Parser<F>, stream: seq<Byte>, arrivals: seq<Segment>,
    frames: seq<Frame<F>>, spans: seq<Span>, lo: nat, hi: nat)
  {
    && |frames| == |spans|
    && Ordered(spans, lo, hi)
    && (forall i | 0 <= i < |spans| :: FrameFrom(p, stream, arrivals, frames[i], spans[i]))
  }

  /** The state holds exactly the bytes of the stream from `at` on. */
  ghost predicate Holds(st: State, stream: seq<Byte>, arrivals: seq<Segment>, at: nat) {
    && at <= |stream| == Total(arrivals) && NonEmptySegments(arrivals)
    && st.buffer == stream[at..]
    && st.segments == Trim(arrivals, at)
  }

  /** `done` is what the loop makes of `st`: bytes conserved, frames placed in [at, at'). */
  ghost predicate Accounted<F>(
    p: Parser<F>, stream: seq<Byte>, arrivals: seq<Segment>,
    discarded: nat, done: (State, seq<Frame<F>>), spans: seq<Span>, at: nat, at': nat)
  {
    && at <= at'
    && Holds(done.0, stream, arrivals, at')
    && Placed(p, stream, arrivals, done.1, spans, at, at')
    && done.0.discardedBytes + SpanBytes(spans) == discarded + at' - at
  }

  lemma DiscardHolds(st: State, n: nat, stream: seq<Byte>, arrivals: seq<Segment>, at: nat)
    requires st.Consistent() && Holds(st, stream, arrivals, at) && n <= |st.buffer|
    ensures Holds(st.Discard(n), stream, arrivals, at + n)
  {
    TrimAdds(arrivals, at, n);
  }

  lemma HoldsIgnoresCounters(st: State, stream: seq<Byte>, arrivals: seq<Segment>, at: nat)
    requires Holds(st, stream, arrivals, at)
    ensures Holds(st.CountError(), stream, arrivals, at)
    ensures Holds(st.Settle(), stream, arrivals, at)
  {
  }

  lemma AcceptHolds(st: State, drop: nat, n: nat, stream: seq<Byte>, arrivals: seq<Segment>, at: nat)
    requires st.Consistent() && Holds(st, stream, arrivals, at) && drop + n <= |st.buffer|
    ensures Holds(st.Discard(drop).Accept(n), stream, arrivals, at + drop + n)
  {
    DiscardHolds(st, drop, stream, arrivals, at);
    var s := st.Discard(drop);
    TrimAdds(arrivals, at + drop, n);
    assert s.Accept(n).buffer == stream[at + drop + n..];
  }

  /** Draining accounts for every buffered byte and places every frame. */
  lemma {:induction false} DrainPlaces<F>(p: Parser<F>, st: State, stream: seq<Byte>, arrivals: seq<Segment>, at: nat)
    returns (spans: seq<Span>, at': nat)
    requires st.Consistent() && Holds(st, stream, arrivals, at)
    ensures Accounted(p, stream, arrivals, st.discardedBytes, Drain(p, st), spans, at, at')
    decreases |st.buffer|
  {
    hide Decide, Drain, Trim, Total, HolderOf, Accounted, Holds, FrameFrom;
    match Decide(p, st.buffer)
    case Halt(drop) =>
      spans, at' := [], at + drop;
      HaltPlaces(p, st, drop, stream, arrivals, at);
    case Resync(drop) =>
      DiscardHolds(st, drop, stream, arrivals, at);
      HoldsIgnoresCounters(st.Discard(drop), stream, arrivals, at + drop);
      spans, at' := DrainPlaces(p, st.Discard(drop).CountError(), stream, arrivals, at + drop);
      ResyncPlaces(p, st, drop, stream, arrivals, at, spans, at');
    case Packet(drop, length, body) =>
      AcceptHolds(st, drop, length, stream, arrivals, at);
      spans, at' := DrainPlaces(p, st.Discard(drop).Accept(length), stream, arrivals, at + drop + length);
      spans := PacketPlaces(p, st, drop, length, body, stream, arrivals, at, spans, at');
  }

  /** The step of `DrainPlaces` that stops. */
  lemma HaltPlaces<F>(p: Parser<F>, st: State, drop: nat, stream: seq<Byte>, arrivals: seq<Segment>, at: nat)
    requires st.Consistent() && Holds(st, stream, arrivals, at) && Decide(p, st.buffer).Halt? && Decide(p, st.buffer).drop == drop
    ensures Accounted(p, stream, arrivals, st.discardedBytes, Drain(p, st), [], at, at + drop)
  {
    hide Decide, Trim, Total, Accounted, Holds;
    DiscardHolds(st, drop, stream, arrivals, at);
    AccountedStop(p, stream, arrivals, st.discardedBytes, st.Discard(drop), at, at + drop);
  }

  /** The step of `DrainPlaces` that gives bytes up and goes on. */
  lemma ResyncPlaces<F>(p: Parser<F>, st: State, drop: nat, stream: seq<Byte>, arrivals: seq<Segment>, at: nat,
                        spans: seq<Span>, at': nat)
    requires st.Consistent() && Decide(p, st.buffer).Resync? && Decide(p, st.buffer).drop == drop
    requires Accounted(p, stream, arrivals, st.discardedBytes + drop, Drain(p, st.Discard(drop).CountError()), spans, at + drop, at')
    ensures Accounted(p, stream, arrivals, st.discardedBytes, Drain(p, st), spans, at, at')
  {
    hide Decide, Trim, Total, Accounted;
    AccountedSkip(p, stream, arrivals, st.discardedBytes, Drain(p, st), spans, at, at + drop, at');
  }

  /** The step of `DrainPlaces` that emits a frame. */
  lemma PacketPlaces<F>(
    p: Parser<F>, st: State, drop: nat, length: nat, body: F, stream: seq<Byte>, arrivals: seq<Segment>, at: nat,
    rest: seq<Span>, at': nat)
    returns (spans: seq<Span>)
    requires st.Consistent() && Holds(st, stream, arrivals, at) && Decide(p, st.buffer) == Packet(drop, length, body)
    requires Accounted(p, stream, arrivals, st.discardedBytes + drop, Drain(p, st.Discard(drop).Accept(length)), rest,
                       at + drop + length, at')
    ensures Accounted(p, stream, arrivals, st.discardedBytes, Drain(p, st), spans, at, at')
  {
    hide Decide, Trim, Total, HolderOf, Accounted, Holds, FrameFrom;
    var f := FirstFrame(p, st, drop, length, body, stream, arrivals, at);
    spans := AccountedCons(p, stream, arrivals, st.discardedBytes, f, Drain(p, st.Discard(drop).Accept(length)),
                           at, at + drop, at + drop + length, rest, at');
  }

  lemma AccountedStop<F>(
    p: Parser<F>, stream: seq<Byte>, arrivals: seq<Segment>, discarded: nat, st: State, at: nat, at': nat)
    requires at <= at' && Holds(st, stream, arrivals, at')
    requires st.discardedBytes == discarded + at' - at
    ensures Accounted(p, stream, arrivals, discarded, (st, []), [], at, at')
  {
  }

  lemma AccountedSkip<F>(
    p: Parser<F>, stream: seq<Byte>, arrivals: seq<Segment>, discarded: nat, done: (State, seq<Frame<F>>),
    spans: seq<Span>, at: nat, mid: nat, at': nat)
    requires at <= mid
    requires Accounted(p, stream, arrivals, discarded + mid - at, done, spans, mid, at')
    ensures Accounted(p, stream, arrivals, discarded, done, spans, at, at')
  {
  }

  lemma AccountedCons<F>(
    p: Parser<F>, stream: seq<Byte>, arrivals: seq<Segment>, discarded: nat, f: Frame<F>, done: (State, seq<Frame<F>>),
    at: nat, start: nat, end: nat, rest: seq<Span>, at': nat)
    returns (spans: seq<Span>)
    requires at <= start < end
    requires FrameFrom(p, stream, arrivals, f, Span(start, end))
    requires Accounted(p, stream, arrivals, discarded + start - at, done, rest, end, at')
    ensures Accounted(p, stream, arrivals, discarded, (done.0, [f] + done.1), spans, at, at')
  {
    spans := PlacedCons(p, stream, arrivals, f, done.1, at, start, end, rest, at');
  }

  lemma SliceOfTail(s: seq<Byte>, at: nat, i: nat, j: nat)
    requires at <= |s| && i <= j <= |s| - at
    ensures s[at + i..at + j] == s[at..][i..j]
  {
    var a, b := s[at + i..at + j], s[at..][i..j];
    assert |a| == |b|;
    assert forall k | 0 <= k < |a| :: a[k] == s[at + i + k] == b[k];
  }

  lemma FirstFrame<F>(
    p: Parser<F>, st: State, drop: nat, length: nat, body: F,
    stream: seq<Byte>, arrivals: seq<Segment>, at: nat)
    returns (f: Frame<F>)
    requires st.Consistent() && Holds(st, stream, arrivals, at)
    requires 0 < length && drop + length <= |st.buffer|
    requires p.parse(st.buffer[drop..drop + length]) == Some(body)
    ensures f == Frame(body, st.Discard(drop).segments[0].receiptNs, st.Discard(drop).segments[0].uncertaintyNs)
    ensures FrameFrom(p, stream, arrivals, f, Span(at + drop, at + drop + length))
  {
    var start := at + drop;
    DiscardHolds(st, drop, stream, arrivals, at);
    f := Frame(body, st.Discard(drop).segments[0].receiptNs, st.Discard(drop).segments[0].uncertaintyNs);
    SliceOfTail(stream, at, drop, drop + length);
    TrimHead(arrivals, start);
  }

  lemma PlacedCons<F>(
    p: Parser<F>, stream: seq<Byte>, arrivals: seq<Segment>, f: Frame<F>, frames: seq<Frame<F>>,
    lo: nat, start: nat, end: nat, rest: seq<Span>, hi: nat)
    returns (spans: seq<Span>)
    requires lo <= start < end <= hi
    requires FrameFrom(p, stream, arrivals, f, Span(start, end))
    requires Placed(p, stream, arrivals, frames, rest, end, hi)
    ensures Placed(p, stream, arrivals, [f] + frames, spans, lo, hi)
    ensures SpanBytes(spans) == end - start + SpanBytes(rest)
  {
    spans := [Span(start, end)] + rest;
    assert spans[1..] == rest;
    forall i | 0 <= i < |spans|
      ensures FrameFrom(p, stream, arrivals, ([f] + frames)[i], spans[i])
    {
      if i > 0 { assert spans[i] == rest[i - 1] && ([f] + frames)[i] == frames[i - 1]; }
    }
  }

  // --- One feed, then a whole capture ----------------------------------------

  lemma FeedPlaces<F>(
    p: Parser<F>, maxBufferBytes: nat, st: State, c: Chunk, stream: seq<Byte>, arrivals: seq<Segment>, at: nat)
    returns (spans: seq<Span>, at': nat)
    requires st.Consistent() && Holds(st, stream, arrivals, at)
    ensures Accounted(p, stream + c.data, arrivals + Arrival(c), st.discardedBytes,
                      Feed(p, maxBufferBytes, st, c), spans, at, at')
  {
    hide Drain, Trim, Total, HolderOf;
    var stream', arrivals' := stream + c.data, arrivals + Arrival(c);
    TotalAppend(arrivals, Arrival(c));
    TrimAppend(arrivals, Arrival(c), at);
    var grown := Extend(st, c);
    assert grown.buffer == stream'[at..];
    var over := if |grown.buffer| > maxBufferBytes then |grown.buffer| - maxBufferBytes else 0;
    if over > 0 {
      DiscardHolds(grown, over, stream', arrivals', at);
    }
    var kept := if over > 0 then grown.Discard(over) else grown;
    spans, at' := DrainPlaces(p, kept, stream', arrivals', at + over);
    HoldsIgnoresCounters(Drain(p, kept).0, stream', arrivals', at');
    AccountedSkip(p, stream', arrivals', st.discardedBytes, Drain(p, kept), spans, at, at + over, at');
  }

  lemma PlacedGrows<F>(
    p: Parser<F>, stream: seq<Byte>, arrivals: seq<Segment>, more: seq<Byte>, later: seq<Segment>,
    frames: seq<Frame<F>>, spans: seq<Span>, lo: nat, hi: nat)
    requires Placed(p, stream, arrivals, frames, spans, lo, hi)
    requires Total(later) == |more|
    ensures Placed(p, stream + more, arrivals + later, frames, spans, lo, hi)
  {
    TotalAppend(arrivals, later);
    forall i | 0 <= i < |spans|
      ensures FrameFrom(p, stream + more, arrivals + later, frames[i], spans[i])
    {
      var s := spans[i];
      assert FrameFrom(p, stream, arrivals, frames[i], s);
      assert (stream + more)[s.start..s.end] == stream[s.start..s.end];
      HolderAppend(arrivals, later, s.start);
    }
  }

  lemma AccountedJoin<F>(
    p: Parser<F>, stream: seq<Byte>, arrivals: seq<Segment>, d0: nat,
    d1: nat, frames: seq<Frame<F>>, spans: seq<Span>, at: nat, mid: nat,
    done: (State, seq<Frame<F>>), rest: seq<Span>, at': nat)
    requires at <= mid
    requires Placed(p, stream, arrivals, frames, spans, at, mid)
    requires d1 + SpanBytes(spans) == d0 + mid - at
    requires Accounted(p, stream, arrivals, d1, done, rest, mid, at')
    ensures Accounted(p, stream, arrivals, d0, (done.0, frames + done.1), spans + rest, at, at')
  {
    SpanBytesAppend(spans, rest);
    forall i | 0 <= i < |spans + rest|
      ensures FrameFrom(p, stream, arrivals, (frames + done.1)[i], (spans + rest)[i])
    {
      if i < |spans| {
        assert FrameFrom(p, stream, arrivals, frames[i], spans[i]);
      } else {
        assert FrameFrom(p, stream, arrivals, done.1[i - |spans|], rest[i - |spans|]);
      }
    }
  }

  lemma {:induction false} FeedAllPlaces<F>(
    p: Parser<F>, maxBufferBytes: nat, st: State, chunks: seq<Chunk>, stream: seq<Byte>, arrivals: seq<Segment>, at: nat)
    returns (spans: seq<Span>, at': nat)
    requires st.Consistent() && Holds(st, stream, arrivals, at)
    ensures Accounted(p, stream + Data(chunks), arrivals + Arrivals(chunks), st.discardedBytes,
                      FeedAll(p, maxBufferBytes, st, chunks), spans, at, at')
    decreases |chunks|
  {
    hide Feed, FeedAll, Data, Arrivals, Trim, Total, HolderOf, Accounted, Holds, Placed;
    FeedAllOnce(p, maxBufferBytes, st, chunks);
    if chunks == [] {
      assert stream + Data(chunks) == stream && arrivals + Arrivals(chunks) == arrivals;
      spans, at' := [], at;
      AccountedStop(p, stream, arrivals, st.discardedBytes, st, at, at);
    } else {
      var c := chunks[0];
      var first := Feed(p, maxBufferBytes, st, c);
      var mid, rest;
      spans, mid := FeedPlaces(p, maxBufferBytes, st, c, stream, arrivals, at);
      var stream1, arrivals1 := stream + c.data, arrivals + Arrival(c);
      AccountedParts(p, stream1, arrivals1, st.discardedBytes, first, spans, at, mid);
      PlacedGrows(p, stream1, arrivals1, Data(chunks[1..]), Arrivals(chunks[1..]), first.1, spans, at, mid);
      rest, at' := FeedAllPlaces(p, maxBufferBytes, first.0, chunks[1..], stream1, arrivals1, mid);
      assert stream1 + Data(chunks[1..]) == stream + Data(chunks);
      assert arrivals1 + Arrivals(chunks[1..]) == arrivals + Arrivals(chunks);
      AccountedJoin(p, stream + Data(chunks), arrivals + Arrivals(chunks), st.discardedBytes, first.0.discardedBytes,
                    first.1, spans, at, mid, FeedAll(p, maxBufferBytes, first.0, chunks[1..]), rest, at');
      spans := spans + rest;
    }
  }

  /** One step of everything that recurs over the chunks. */
  lemma FeedAllOnce<F>(p: Parser<F>, maxBufferBytes: nat, st: State, chunks: seq<Chunk>)
    requires st.Consistent()
    ensures chunks == [] ==> Data(chunks) == [] && Arrivals(chunks) == [] && FeedAll(p, maxBufferBytes, st, chunks) == (st, [])
    ensures chunks != [] ==>
      && Data(chunks) == chunks[0].data + Data(chunks[1..])
      && Arrivals(chunks) == Arrival(chunks[0]) + Arrivals(chunks[1..])
      && var first := Feed(p, maxBufferBytes, st, chunks[0]);
         var rest := FeedAll(p, maxBufferBytes, first.0, chunks[1..]);
         FeedAll(p, maxBufferBytes, st, chunks) == (rest.0, first.1 + rest.1)
  {
    hide Feed, Total;
  }

  lemma AccountedParts<F>(
    p: Parser<F>, stream: seq<Byte>, arrivals: seq<Segment>, discarded: nat, done: (State, seq<Frame<F>>),
    spans: seq<Span>, at: nat, at': nat)
    requires Accounted(p, stream, arrivals, discarded, done, spans, at, at')
    ensures at <= at' && Holds(done.0, stream, arrivals, at') && Placed(p, stream, arrivals, done.1, spans, at, at')
    ensures done.0.discardedBytes + SpanBytes(spans) == discarded + at' - at
  {
  }

  /**
   Byte accounting: in every capture, whatever the bytes and however they are
   chunked, the bytes fed are exactly those discarded, those of emitted packets
   and those still buffered, the buffered ones being the tail of the stream.
   Every frame was parsed from its own stretch of the stream and carries the
   receipt time of the chunk that delivered its first byte.
   */
  lemma CaptureAccounting<F>(p: Parser<F>, maxBufferBytes: nat, chunks: seq<Chunk>) returns (spans: seq<Span>)
    ensures var (st, frames) := FeedAll(p, maxBufferBytes, START, chunks);
      && |Data(chunks)| == st.discardedBytes + SpanBytes(spans) + |st.buffer|
      && |st.buffer| <= |Data(chunks)| && st.buffer == Data(chunks)[|Data(chunks)| - |st.buffer|..]
      && Placed(p, Data(chunks), Arrivals(chunks), frames, spans, 0, |Data(chunks)| - |st.buffer|)
  {
    assert Holds(START, [], [], 0);
    var at';
    spans, at' := FeedAllPlaces(p, maxBufferBytes, START, chunks, [], [], 0);
    assert [] + Data(chunks) == Data(chunks) && [] + Arrivals(chunks) == Arrivals(chunks);
  }

  /** Frames never go back in receipt time when the chunks do not. */
  lemma FramesInReceiptOrder<F>(p: Parser<F>, maxBufferBytes: nat, chunks: seq<Chunk>)
    requires forall i, j | 0 <= i < j < |chunks| :: chunks[i].receiptNs <= chunks[j].receiptNs
    ensures var frames := FeedAll(p, maxBufferBytes, START, chunks).1;
      forall i, j | 0 <= i < j < |frames| :: frames[i].receiptNs <= frames[j].receiptNs
  {
    var spans := CaptureAccounting(p, maxBufferBytes, chunks);
    var frames := FeedAll(p, maxBufferBytes, START, chunks).1;
    ArrivalsSorted(chunks);
    forall i, j | 0 <= i < j < |frames|
      ensures frames[i].receiptNs <= frames[j].receiptNs
    {
      assert FrameFrom(p, Data(chunks), Arrivals(chunks), frames[i], spans[i]);
      assert FrameFrom(p, Data(chunks), Arrivals(chunks), frames[j], spans[j]);
      HolderMonotone(Arrivals(chunks), spans[i].start, spans[j].start);
    }
  }

  lemma {:induction false} ArrivalOfSome(chunks: seq<Chunk>, s: Segment)
    requires s in Arrivals(chunks)
    ensures exists i :: 0 <= i < |chunks| && s.receiptNs == chunks[i].receiptNs
  {
    if s in Arrival(chunks[0]) {
      assert s.receiptNs == chunks[0].receiptNs;
    } else {
      ArrivalOfSome(chunks[1..], s);
      var i :| 0 <= i < |chunks[1..]| && s.receiptNs == chunks[1..][i].receiptNs;
      assert chunks[i + 1] == chunks[1..][i];
    }
  }

  lemma {:induction false} ArrivalsSorted(chunks: seq<Chunk>)
    requires forall i, j | 0 <= i < j < |chunks| :: chunks[i].receiptNs <= chunks[j].receiptNs
    ensures ReceiptsSorted(Arrivals(chunks))
  {
    if chunks != [] {
      var rest := chunks[1..];
      ArrivalsSorted(rest);
      forall s | s in Arrivals(rest)
        ensures chunks[0].receiptNs <= s.receiptNs
      {
        ArrivalOfSome(rest, s);
        var i :| 0 <= i < |rest| && s.receiptNs == rest[i].receiptNs;
        assert chunks[i + 1] == rest[i];
      }
    }
  }

}
