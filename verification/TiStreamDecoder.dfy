/**
 The incremental, resynchronising decoder for TI mmWave UART packets
 (sensors/ti_mmwave.py, `TiMmwaveStreamDecoder`).

 The packet parser is a parameter: a partial function from byte strings to
 frames.  `WellBehaved` records what `parse_packet` checks before it accepts a
 packet, and nothing else is assumed about it.
 */
module TiStreamDecoder {
  import opened Wrappers

  const MAGIC: seq<Byte> := [2, 1, 4, 3, 6, 5, 8, 7]
  const BASE_HEADER_SIZE := 40
  const DOCUMENTED_HEADER_SIZE := 52

  predicate MagicAt(b: seq<Byte>, i: int) {
    0 <= i && i + 8 <= |b| && b[i..i + 8] == MAGIC
  }

  /** `bytearray.find`: the first occurrence at or after `from`, or -1. */
  function FindMagic(b: seq<Byte>, from: nat): (r: int)
    ensures -1 <= r
    ensures r == -1 ==> forall i | from <= i :: !MagicAt(b, i)
    ensures r != -1 ==> from <= r <= |b| - 8 && MagicAt(b, r)
    ensures r != -1 ==> forall i | from <= i < r :: !MagicAt(b, i)
    decreases |b| - from
  {
    if from + 8 > |b| then -1
    else if MagicAt(b, from) then from
    else FindMagic(b, from + 1)
  }

  function U32At(b: seq<Byte>, i: nat): nat
    requires i + 4 <= |b|
  {
    var b0: int, b1: int, b2: int, b3: int := b[i], b[i + 1], b[i + 2], b[i + 3];
    b0 + 0x100 * b1 + 0x1_0000 * b2 + 0x100_0000 * b3
  }

  datatype Parser<F> = Parser(maxPacketBytes: nat, parse: seq<Byte> -> Option<F>)

  /** What an accepted packet looks like, whatever its TLVs hold. */
  ghost predicate WellBehaved<F(!new)>(p: Parser<F>) {
    forall packet :: p.parse(packet).Some? ==>
      && BASE_HEADER_SIZE <= |packet| <= p.maxPacketBytes
      && MagicAt(packet, 0)
      && U32At(packet, 12) == |packet|
  }

  predicate PlausibleLength<F>(p: Parser<F>, n: nat) {
    BASE_HEADER_SIZE <= n <= p.maxPacketBytes
  }

  function FindNextPlausibleMagic<F>(p: Parser<F>, b: seq<Byte>, from: nat): (r: int)
    ensures r != -1 ==> from <= r && MagicAt(b, r)
    ensures (forall i | from <= i :: !MagicAt(b, i)) ==> r == -1
    decreases |b| - from
  {
    var index := FindMagic(b, from);
    if index < 0 || |b| < index + 16 then -1
    else if PlausibleLength(p, U32At(b, index + 12)) then index
    else FindNextPlausibleMagic(p, b, index + 1)
  }

  // --- Receipt segments ------------------------------------------------------

  /** A run of bytes that arrived in one chunk, with that chunk's receipt time. */
  datatype Segment = Segment(length: nat, receiptNs: nat, uncertaintyNs: nat)

  function Total(segments: seq<Segment>): nat {
    if segments == [] then 0 else segments[0].length + Total(segments[1..])
  }

  /** `_discard_prefix` on the segment queue. */
  function Trim(segments: seq<Segment>, n: nat): (r: seq<Segment>)
    requires n <= Total(segments)
    ensures Total(r) == Total(segments) - n
    decreases |segments|
  {
    if n == 0 then segments
    else if segments[0].length <= n then Trim(segments[1..], n - segments[0].length)
    else
      var rest := [segments[0].(length := segments[0].length - n)] + segments[1..];
      assert rest[1..] == segments[1..];
      rest
  }

  /** The chunk that delivered byte `k` of the stream. */
  function HolderOf(segments: seq<Segment>, k: nat): Segment
    requires k < Total(segments)
  {
    if k < segments[0].length then segments[0]
    else HolderOf(segments[1..], k - segments[0].length)
  }

  predicate NonEmptySegments(segments: seq<Segment>) {
    forall s | s in segments :: s.length > 0
  }

  lemma {:induction false} TrimAdds(segments: seq<Segment>, a: nat, b: nat)
    requires a + b <= Total(segments) && NonEmptySegments(segments)
    ensures NonEmptySegments(Trim(segments, a))
    ensures Trim(Trim(segments, a), b) == Trim(segments, a + b)
    decreases |segments|
  {
    if a == 0 {
    } else if segments[0].length <= a {
      TrimAdds(segments[1..], a - segments[0].length, b);
    } else {
      var t := Trim(segments, a);
      assert t[1..] == segments[1..];
      if b == 0 {
      } else if t[0].length <= b {
        assert Trim(t, b) == Trim(segments[1..], b - t[0].length);
      } else {
        assert Trim(t, b)[0] == Trim(segments, a + b)[0];
      }
    }
  }

  lemma {:induction false} TotalAppend(a: seq<Segment>, b: seq<Segment>)
    ensures Total(a + b) == Total(a) + Total(b)
  {
    if a == [] {
      assert a + b == b;
    } else {
      TotalAppend(a[1..], b);
      assert (a + b)[1..] == a[1..] + b;
    }
  }

  lemma {:induction false} TrimAppend(a: seq<Segment>, b: seq<Segment>, n: nat)
    requires n <= Total(a)
    ensures n <= Total(a + b) && Trim(a + b, n) == Trim(a, n) + b
    decreases |a|
  {
    TotalAppend(a, b);
    if n != 0 {
      assert (a + b)[1..] == a[1..] + b;
      if a[0].length <= n {
        TrimAppend(a[1..], b, n - a[0].length);
      }
    }
  }

  lemma {:induction false} TrimHead(segments: seq<Segment>, n: nat)
    requires n < Total(segments) && NonEmptySegments(segments)
    ensures Trim(segments, n) != []
    ensures Trim(segments, n)[0].receiptNs == HolderOf(segments, n).receiptNs
    ensures Trim(segments, n)[0].uncertaintyNs == HolderOf(segments, n).uncertaintyNs
    decreases |segments|
  {
    if n != 0 && segments[0].length <= n {
      TrimHead(segments[1..], n - segments[0].length);
    }
  }

  predicate ReceiptsSorted(segments: seq<Segment>) {
    forall i, j | 0 <= i < j < |segments| :: segments[i].receiptNs <= segments[j].receiptNs
  }

  lemma {:induction false} HolderIn(segments: seq<Segment>, k: nat)
    requires k < Total(segments)
    ensures HolderOf(segments, k) in segments
    decreases |segments|
  {
    if segments[0].length <= k {
      HolderIn(segments[1..], k - segments[0].length);
    }
  }

  lemma {:induction false} HolderMonotone(segments: seq<Segment>, a: nat, b: nat)
    requires a <= b < Total(segments) && ReceiptsSorted(segments)
    ensures HolderOf(segments, a).receiptNs <= HolderOf(segments, b).receiptNs
    decreases |segments|
  {
    if a < segments[0].length {
      HolderIn(segments, b);
    } else {
      HolderMonotone(segments[1..], a - segments[0].length, b - segments[0].length);
    }
  }

  lemma {:induction false} HolderAppend(a: seq<Segment>, b: seq<Segment>, k: nat)
    requires k < Total(a)
    ensures k < Total(a + b) && HolderOf(a + b, k) == HolderOf(a, k)
    decreases |a|
  {
    TotalAppend(a, b);
    assert (a + b)[1..] == a[1..] + b;
    if a[0].length <= k {
      HolderAppend(a[1..], b, k - a[0].length);
    }
  }

  // --- The decoder as a state transformer -----------------------------------

  datatype Frame<F> = Frame(body: F, receiptNs: nat, uncertaintyNs: nat)

  datatype State = State(
    buffer: seq<Byte>,
    segments: seq<Segment>,
    discardedBytes: nat,
    parseErrors: nat,
    synchronized: bool,
    startupDiscarded: nat,
    startupErrors: nat)
  {
    predicate Consistent() {
      Total(segments) == |buffer| && NonEmptySegments(segments)
    }

    /** Drop `n` bytes as unusable. */
    function Discard(n: nat): (r: State)
      requires n <= |buffer| && Consistent()
      ensures r.Consistent() && r.buffer == buffer[n..]
    {
      TrimAdds(segments, n, 0);
      this.(buffer := buffer[n..], segments := Trim(segments, n), discardedBytes := discardedBytes + n)
    }

    function CountError(): (r: State)
    {
      this.(parseErrors := parseErrors + 1)
    }

    /** Remove an accepted packet; the first one fixes the start-up totals. */
    function Accept(n: nat): (r: State)
      requires n <= |buffer| && Consistent()
      ensures r.Consistent() && r.buffer == buffer[n..]
    {
      TrimAdds(segments, n, 0);
      var s := this.(buffer := buffer[n..], segments := Trim(segments, n));
      if synchronized then s
      else s.(synchronized := true, startupDiscarded := discardedBytes, startupErrors := parseErrors)
    }

    function Settle(): State {
      if synchronized then this
      else this.(startupDiscarded := discardedBytes, startupErrors := parseErrors)
    }
  }

  const START := State([], [], 0, 0, false, 0, 0)

  /** What one turn of the loop in `feed` decides from the bytes in the buffer. */
  datatype Decision<F> =
    | Halt(drop: nat)
    | Resync(drop: nat)
    | Packet(drop: nat, length: nat, body: F)

  function Decide<F>(p: Parser<F>, b: seq<Byte>): (d: Decision<F>)
    ensures d.drop <= |b|
    ensures d.Halt? && DOCUMENTED_HEADER_SIZE <= p.maxPacketBytes ==> |b| - d.drop < p.maxPacketBytes
    ensures d.Resync? ==> d.drop > 0
    ensures d.Packet? ==> d.length > 0 && d.drop + d.length <= |b|
    ensures d.Packet? ==> p.parse(b[d.drop..d.drop + d.length]) == Some(d.body)
  {
    var magic := FindMagic(b, 0);
    if magic < 0 then Halt(|b| - Min(|b|, |MAGIC| - 1))
    else if |b| - magic < 16 then Halt(magic)
    else
      var total := U32At(b, magic + 12);
      if !PlausibleLength(p, total) then Resync(magic + 1)
      else if |b| - magic < total then
        var next := FindNextPlausibleMagic(p, b, magic + 1);
        if next < 0 then Halt(magic) else Resync(next)
      else
        match p.parse(b[magic..magic + total])
        case None => Resync(magic + 1)
        case Some(body) => Packet(magic, total, body)
  }

  /** The loop of `feed`, run until it stops. */
  function Drain<F>(p: Parser<F>, st: State): (r: (State, seq<Frame<F>>))
    requires st.Consistent()
    ensures r.0.Consistent()
    ensures DOCUMENTED_HEADER_SIZE <= p.maxPacketBytes ==> |r.0.buffer| < p.maxPacketBytes
    decreases |st.buffer|
  {
    match Decide(p, st.buffer)
    case Halt(drop) => (st.Discard(drop), [])
    case Resync(drop) => Drain(p, st.Discard(drop).CountError())
    case Packet(drop, length, body) =>
      var s := st.Discard(drop);
      var rest := Drain(p, s.Accept(length));
      (rest.0, [Frame(body, s.segments[0].receiptNs, s.segments[0].uncertaintyNs)] + rest.1)
  }

  datatype Chunk = Chunk(data: seq<Byte>, receiptNs: nat, uncertaintyNs: nat)

  /** The receipt segment a chunk adds; an empty chunk adds none. */
  function Arrival(c: Chunk): (r: seq<Segment>)
    ensures NonEmptySegments(r) && Total(r) == |c.data|
  {
    if c.data == [] then [] else [Segment(|c.data|, c.receiptNs, c.uncertaintyNs)]
  }

  function Extend(st: State, c: Chunk): (r: State)
    requires st.Consistent()
    ensures r.Consistent()
  {
    TotalAppend(st.segments, Arrival(c));
    st.(buffer := st.buffer + c.data, segments := st.segments + Arrival(c))
  }

  /** One call of `feed`. */
  function Feed<F>(p: Parser<F>, maxBufferBytes: nat, st: State, c: Chunk): (r: (State, seq<Frame<F>>))
    requires st.Consistent()
    ensures r.0.Consistent()
  {
    var grown := Extend(st, c);
    var kept := if |grown.buffer| > maxBufferBytes then grown.Discard(|grown.buffer| - maxBufferBytes) else grown;
    var drained := Drain(p, kept);
    (drained.0.Settle(), drained.1)
  }

  function FeedAll<F>(p: Parser<F>, maxBufferBytes: nat, st: State, chunks: seq<Chunk>): (r: (State, seq<Frame<F>>))
    requires st.Consistent()
    ensures r.0.Consistent()
    decreases |chunks|
  {
    if chunks == [] then (st, [])
    else
      var first := Feed(p, maxBufferBytes, st, chunks[0]);
      var rest := FeedAll(p, maxBufferBytes, first.0, chunks[1..]);
      (rest.0, first.1 + rest.1)
  }

  // --- The decoder object ----------------------------------------------------

  class TiMmwaveStreamDecoder<F> {
    const parser: Parser<F>
    const maxBufferBytes: nat

    var buffer: seq<Byte>
    var segments: seq<Segment>
    var discardedBytes: nat
    var parseErrors: nat
    var synchronized: bool
    var startupDiscarded: nat
    var startupErrors: nat

    ghost function St(): State
      reads this
    {
      State(buffer, segments, discardedBytes, parseErrors, synchronized, startupDiscarded, startupErrors)
    }

    ghost predicate Valid()
      reads this
    {
      DOCUMENTED_HEADER_SIZE <= parser.maxPacketBytes <= maxBufferBytes && St().Consistent()
    }

    constructor (parser: Parser<F>, maxBufferBytes: nat)
      requires DOCUMENTED_HEADER_SIZE <= parser.maxPacketBytes <= maxBufferBytes
      ensures Valid() && St() == START
      ensures this.parser == parser && this.maxBufferBytes == maxBufferBytes
    {
      this.parser, this.maxBufferBytes := parser, maxBufferBytes;
      buffer, segments := [], [];
      discardedBytes, parseErrors := 0, 0;
      synchronized, startupDiscarded, startupErrors := false, 0, 0;
    }

    /** Neither of the two internal errors of the original can be reached. */
    method DiscardPrefix(count: nat)
      requires St().Consistent() && count <= |buffer|
      modifies this`buffer, this`segments
      ensures buffer == old(buffer)[count..] && segments == Trim(old(segments), count)
      ensures St().Consistent()
    {
      ghost var all := segments;
      TrimAdds(all, count, 0);
      buffer := buffer[count..];
      var remaining := count;
      while remaining > 0
        invariant 0 <= remaining <= Total(segments)
        invariant Trim(segments, remaining) == Trim(all, count)
        modifies this`segments
        decreases |segments|, remaining
      {
        var first := segments[0];
        if first.length <= remaining {
          segments := segments[1..];
          remaining := remaining - first.length;
        } else {
          segments := [first.(length := first.length - remaining)] + segments[1..];
          remaining := 0;
        }
      }
    }

    method DiscardAndCount(count: nat)
      requires St().Consistent() && count <= |buffer|
      modifies this`buffer, this`segments, this`discardedBytes
      ensures St() == old(St()).Discard(count)
    {
      DiscardPrefix(count);
      discardedBytes := discardedBytes + count;
    }

    /** The body of the loop in `feed`; `more` is false where the original breaks. */
    method TakeTurn() returns (more: bool, frames: seq<Frame<F>>)
      requires Valid()
      modifies this
      ensures Valid()
      ensures match Decide(parser, old(buffer))
              case Halt(drop) => !more && frames == [] && St() == old(St()).Discard(drop)
              case Resync(drop) => more && frames == [] && St() == old(St()).Discard(drop).CountError()
              case Packet(drop, length, body) =>
                var s := old(St()).Discard(drop);
                && more && St() == s.Accept(length)
                && frames == [Frame(body, s.segments[0].receiptNs, s.segments[0].uncertaintyNs)]
    {
      hide Decide, Trim, FindMagic, FindNextPlausibleMagic, MagicAt;
      frames, more := [], false;
      ghost var before, b := St(), buffer;
      var magic := FindMagic(buffer, 0);
      DecideFromMagic(parser, b);
      if magic < 0 {
        DiscardAndCount(|buffer| - Min(|buffer|, |MAGIC| - 1));
        return;
      }
      DiscardAndCount(magic);
      if |buffer| < 16 {
        return;
      }
      var receipt := segments[0];
      var total := U32At(buffer, 12);
      if !PlausibleLength(parser, total) {
        ResyncHere(before, magic, 1);
        return true, [];
      }
      if |buffer| < total {
        var next := FindNextPlausibleMagic(parser, buffer, 1);
        if next >= 0 {
          ResyncHere(before, magic, next);
          more := true;
        }
        return;
      }
      match parser.parse(buffer[..total])
      case None =>
        ResyncHere(before, magic, 1);
        return true, [];
      case Some(body) =>
        if !synchronized {
          synchronized := true;
          startupDiscarded := discardedBytes;
          startupErrors := parseErrors;
        }
        DiscardPrefix(total);
        return true, [Frame(body, receipt.receiptNs, receipt.uncertaintyNs)];
    }

    method ResyncHere(ghost before: State, ghost magic: nat, count: nat)
      requires Valid() && before.Consistent() && count <= |buffer|
      requires magic <= |before.buffer| && St() == before.Discard(magic)
      modifies this`buffer, this`segments, this`discardedBytes, this`parseErrors
      ensures Valid() && magic + count <= |before.buffer|
      ensures St() == before.Discard(magic + count).CountError()
    {
      TrimAdds(before.segments, magic, count);
      DiscardAndCount(count);
      parseErrors := parseErrors + 1;
    }

    method RunLoop() returns (frames: seq<Frame<F>>)
      requires Valid()
      modifies this
      ensures Valid()
      ensures (St(), frames) == Drain(parser, old(St()))
    {
      hide Drain, Decide, Trim, Total;
      frames := [];
      var more := true;
      ghost var goal := Drain(parser, St());
      ghost var st, rest := St(), goal;
      while more
        invariant Valid() && st == St()
        invariant more ==> rest == Drain(parser, st)
        invariant !more ==> rest == (st, [])
        invariant goal.0 == rest.0 && goal.1 == frames + rest.1
        decreases more, |buffer|
      {
        ghost var d := Decide(parser, buffer);
        var found;
        more, found := TakeTurn();
        rest := DrainOnce(parser, st, rest);
        assert frames + (found + rest.1) == frames + found + rest.1;
        frames, st := frames + found, St();
      }
      assert goal.1 == frames;
    }

    method FeedChunk(c: Chunk) returns (frames: seq<Frame<F>>)
      requires Valid()
      modifies this
      ensures Valid()
      ensures (St(), frames) == Feed(parser, maxBufferBytes, old(St()), c)
      ensures |buffer| < parser.maxPacketBytes
    {
      hide Drain, Trim, Total;
      TotalAppend(segments, Arrival(c));
      buffer := buffer + c.data;
      if c.data != [] {
        segments := segments + [Segment(|c.data|, c.receiptNs, c.uncertaintyNs)];
      }
      assert St() == Extend(old(St()), c);
      if |buffer| > maxBufferBytes {
        DiscardAndCount(|buffer| - maxBufferBytes);
      }
      frames := RunLoop();
      if !synchronized {
        startupDiscarded := discardedBytes;
        startupErrors := parseErrors;
      }
    }
  }

  lemma DrainOnce<F>(p: Parser<F>, st: State, whole: (State, seq<Frame<F>>)) returns (rest: (State, seq<Frame<F>>))
    requires st.Consistent() && whole == Drain(p, st)
    ensures var d := Decide(p, st.buffer);
      && (d.Halt? ==> whole == (st.Discard(d.drop), []) && rest == whole)
      && (d.Resync? ==> rest == Drain(p, st.Discard(d.drop).CountError()) && whole == rest)
      && (d.Packet? ==>
            var s := st.Discard(d.drop);
            && rest == Drain(p, s.Accept(d.length))
            && whole == (rest.0, [Frame(d.body, s.segments[0].receiptNs, s.segments[0].uncertaintyNs)] + rest.1))
  {
    hide FindMagic, Trim, Total, FindNextPlausibleMagic;
    rest :=
      match Decide(p, st.buffer)
      case Halt(drop) => whole
      case Resync(drop) => Drain(p, st.Discard(drop).CountError())
      case Packet(drop, length, _) => Drain(p, st.Discard(drop).Accept(length));
  }

  /** The decision spelled out on the buffer with everything before the magic word gone. */
  lemma DecideFromMagic<F>(p: Parser<F>, b: seq<Byte>)
    ensures var magic := FindMagic(b, 0);
      Decide(p, b) ==
      if magic < 0 then Halt(|b| - Min(|b|, |MAGIC| - 1))
      else
        var rest := b[magic..];
        if |rest| < 16 then Halt(magic)
        else
          var total := U32At(rest, 12);
          if !PlausibleLength(p, total) then Resync(magic + 1)
          else if |rest| < total then
            var next := FindNextPlausibleMagic(p, rest, 1);
            if next < 0 then Halt(magic) else Resync(magic + next)
          else
            match p.parse(rest[..total])
            case None => Resync(magic + 1)
            case Some(body) => Packet(magic, total, body)
  {
    hide FindMagic, FindNextPlausibleMagic, MagicAt;
    var magic := FindMagic(b, 0);
    if magic >= 0 && |b| - magic >= 16 {
      var rest := b[magic..];
      assert rest[12..16] == b[magic + 12..magic + 16];
      NextInSuffix(p, b, magic, 1);
      if |rest| >= U32At(rest, 12) {
        assert rest[..U32At(rest, 12)] == b[magic..magic + U32At(rest, 12)];
      }
    }
  }

  /** Searching a suffix of the buffer is searching the buffer from there. */
  lemma {:induction false} FindInSuffix(b: seq<Byte>, k: nat, from: nat)
    requires k <= |b|
    ensures var r := FindMagic(b[k..], from); FindMagic(b, k + from) == if r < 0 then -1 else k + r
    decreases |b| - from
  {
    if from + 8 <= |b[k..]| {
      assert b[k..][from..from + 8] == b[k + from..k + from + 8];
      FindInSuffix(b, k, from + 1);
    }
  }

  lemma {:induction false} NextInSuffix<F>(p: Parser<F>, b: seq<Byte>, k: nat, from: nat)
    requires k <= |b|
    ensures var r := FindNextPlausibleMagic(p, b[k..], from);
            FindNextPlausibleMagic(p, b, k + from) == if r < 0 then -1 else k + r
    decreases |b| - from
  {
    hide FindMagic, MagicAt;
    FindInSuffix(b, k, from);
    var index := FindMagic(b[k..], from);
    if index >= 0 && |b[k..]| >= index + 16 {
      NextInSuffix(p, b, k, index + 1);
    }
  }
}
