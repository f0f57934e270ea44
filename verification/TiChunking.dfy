/**
 When the frames a capture yields depend on how the serial port happened to
 chunk the bytes.  The stream is magic-free leading bytes followed by packets
 the parser accepts.  A packet may hold a false start: a magic word inside it
 with a plausible length behind it.  One split of the bytes goes wrong exactly
 when a chunk ends inside a packet with a false start already in view; some
 split goes wrong exactly when some packet holds a false start.
 */
module TiChunking {
  import opened Wrappers
  import opened TiStreamDecoder
  import opened TiStreamProperties

  function Flatten(packets: seq<seq<Byte>>): seq<Byte> {
    if packets == [] then [] else packets[0] + Flatten(packets[1..])
  }

  ghost predicate Accepted<F>(p: Parser<F>, packets: seq<seq<Byte>>) {
    forall q | q in packets :: p.parse(q).Some?
  }

  ghost predicate MagicFree(lead: seq<Byte>) {
    forall i :: !MagicAt(lead, i)
  }

  /** Inside the packet, and not at its very end, stands what looks like the start of another. */
  predicate FalseStart<F>(p: Parser<F>, q: seq<Byte>, j: int) {
    0 < j && j + 16 < |q| && MagicAt(q, j) && PlausibleLength(p, U32At(q, j + 12))
  }

  /** After `n` bytes, the packet that is not complete yet, if any, shows no false start. */
  ghost predicate QuietCut<F>(p: Parser<F>, packets: seq<seq<Byte>>, n: int) {
    packets == [] ||
    (if n < |packets[0]| then forall j | FalseStart(p, packets[0], j) :: n < j + 16
     else QuietCut(p, packets[1..], n - |packets[0]|))
  }

  ghost function Bodies<F>(p: Parser<F>, packets: seq<seq<Byte>>): seq<F>
    requires Accepted(p, packets)
  {
    seq(|packets|, i requires 0 <= i < |packets| => p.parse(packets[i]).value)
  }

  function FrameBodies<F>(frames: seq<Frame<F>>): seq<F> {
    seq(|frames|, i requires 0 <= i < |frames| => frames[i].body)
  }

  /** How many leading packets fit in `n` bytes. */
  function Complete(packets: seq<seq<Byte>>, n: int): (k: nat)
    ensures k <= |packets|
  {
    if packets == [] || n < |packets[0]| then 0 else 1 + Complete(packets[1..], n - |packets[0]|)
  }

  lemma {:induction false} FlattenSplit(packets: seq<seq<Byte>>, k: nat)
    requires k <= |packets|
    ensures Flatten(packets) == Flatten(packets[..k]) + Flatten(packets[k..])
  {
    if k == 0 {
      assert packets[0..] == packets;
    } else {
      FlattenSplit(packets[1..], k - 1);
      assert packets[..k][1..] == packets[1..][..k - 1];
      assert packets[k..] == packets[1..][k - 1..];
    }
  }

  predicate IsPrefix(b: seq<Byte>, s: seq<Byte>) {
    |b| <= |s| && b == s[..|b|]
  }

  lemma MagicInPrefix(b: seq<Byte>, s: seq<Byte>, i: int)
    requires IsPrefix(b, s)
    ensures MagicAt(b, i) <==> MagicAt(s, i) && i + 8 <= |b|
  {
    if 0 <= i && i + 8 <= |b| {
      assert b[i..i + 8] == s[i..i + 8];
    }
  }

  /** The search for a newer packet finds one exactly when a plausible one is in view. */
  lemma {:induction false} NextPlausible<F>(p: Parser<F>, b: seq<Byte>, from: nat)
    ensures var r := FindNextPlausibleMagic(p, b, from);
      && (r != -1 ==> from <= r && r + 16 <= |b| && MagicAt(b, r) && PlausibleLength(p, U32At(b, r + 12)))
      && (r == -1 ==> forall j | from <= j && j + 16 <= |b| && MagicAt(b, j) :: !PlausibleLength(p, U32At(b, j + 12)))
    decreases |b| - from
  {
    hide FindMagic, MagicAt;
    var index := FindMagic(b, from);
    if index >= 0 && index + 16 <= |b| && !PlausibleLength(p, U32At(b, index + 12)) {
      NextPlausible(p, b, index + 1);
    }
  }

  /** What begins inside a prefix of a packet is what begins there in the packet. */
  lemma InPrefix<F>(p: Parser<F>, b: seq<Byte>, q: seq<Byte>, j: int)
    requires IsPrefix(b, q) && |b| < |q| && 0 < j && j + 16 <= |b|
    ensures FalseStart(p, q, j) <==> MagicAt(b, j) && PlausibleLength(p, U32At(b, j + 12))
  {
    MagicInPrefix(b, q, j);
    hide MagicAt;
    assert b[j + 12] == q[j + 12] && b[j + 13] == q[j + 13] && b[j + 14] == q[j + 14] && b[j + 15] == q[j + 15];
  }

  lemma NextInPacket<F>(p: Parser<F>, packets: seq<seq<Byte>>, b: seq<Byte>)
    requires packets != [] && IsPrefix(b, packets[0]) && |b| < |packets[0]|
    ensures FindNextPlausibleMagic(p, b, 1) == -1 <==> QuietCut(p, packets, |b|)
  {
    hide MagicAt, FalseStart, FindNextPlausibleMagic, IsPrefix;
    var q, r := packets[0], FindNextPlausibleMagic(p, b, 1);
    NextPlausible(p, b, 1);
    if r != -1 {
      InPrefix(p, b, q, r);
    }
    forall j | r == -1 && FalseStart(p, q, j) ensures |b| < j + 16 {
      if j + 16 <= |b| {
        assert 0 < j by { FalseStartInside(p, q, j); }
        InPrefix(p, b, q, j);
      }
    }
  }

  lemma FalseStartInside<F>(p: Parser<F>, q: seq<Byte>, j: int)
    requires FalseStart(p, q, j)
    ensures 0 < j && j + 16 < |q|
  {
  }

  /** What one turn does with a buffer that begins at a packet boundary. */
  lemma DecideAtStart<F(!new)>(p: Parser<F>, packets: seq<seq<Byte>>, b: seq<Byte>)
    requires WellBehaved(p) && Accepted(p, packets) && IsPrefix(b, Flatten(packets))
    ensures packets != [] && |packets[0]| <= |b| ==> Decide(p, b) == Packet(0, |packets[0]|, p.parse(packets[0]).value)
    ensures packets == [] || |b| < |packets[0]| ==>
      if QuietCut(p, packets, |b|) then Decide(p, b) == Halt(0) else Decide(p, b).Resync?
  {
    if packets == [] || |b| < 8 {
      assert FindMagic(b, 0) == -1;
      if packets != [] {
        assert p.parse(packets[0]).Some?;
      }
    } else {
      DecidePacket(p, packets, b);
    }
  }

  lemma DecidePacket<F(!new)>(p: Parser<F>, packets: seq<seq<Byte>>, b: seq<Byte>)
    requires WellBehaved(p) && Accepted(p, packets) && IsPrefix(b, Flatten(packets)) && packets != [] && |b| >= 8
    ensures |packets[0]| <= |b| ==> Decide(p, b) == Packet(0, |packets[0]|, p.parse(packets[0]).value)
    ensures |b| < |packets[0]| ==> if QuietCut(p, packets, |b|) then Decide(p, b) == Halt(0) else Decide(p, b).Resync?
  {
    hide FindNextPlausibleMagic, FindMagic, MagicAt, U32At, Flatten, IsPrefix, FalseStart, WellBehaved;
    var q := packets[0];
    PacketBytes(p, packets, b);
    if |b| < |q| {
      NextInPacket(p, packets, b);
      if |b| < 16 {
        forall j | FalseStart(p, q, j) ensures |b| < j + 16 {
          FalseStartInside(p, q, j);
        }
      }
    }
  }

  /** The bytes at the start of a buffer that begins with a packet. */
  lemma PacketBytes<F(!new)>(p: Parser<F>, packets: seq<seq<Byte>>, b: seq<Byte>)
    requires WellBehaved(p) && Accepted(p, packets) && IsPrefix(b, Flatten(packets)) && packets != [] && |b| >= 8
    ensures FindMagic(b, 0) == 0 && BASE_HEADER_SIZE <= |packets[0]| <= p.maxPacketBytes
    ensures |b| >= 16 ==> U32At(b, 12) == |packets[0]|
    ensures |b| < |packets[0]| ==> IsPrefix(b, packets[0])
    ensures |packets[0]| <= |b| ==> b[0..|packets[0]|] == packets[0]
  {
    var q, s := packets[0], Flatten(packets);
    assert p.parse(q).Some?;
    assert s[..|q|] == q;
    assert s[0..8] == q[0..8];
    MagicInPrefix(b, s, 0);
    if |b| >= 16 {
      assert b[12] == q[12] && b[13] == q[13] && b[14] == q[14] && b[15] == q[15];
    }
    if |b| < |q| {
      assert b == q[..|b|];
    }
  }

  lemma {:induction false} DrainClean<F(!new)>(p: Parser<F>, packets: seq<seq<Byte>>, st: State)
    requires WellBehaved(p) && Accepted(p, packets) && IsPrefix(st.buffer, Flatten(packets)) && st.Consistent()
    requires QuietCut(p, packets, |st.buffer|)
    ensures var (st', frames) := Drain(p, st);
      var k := Complete(packets, |st.buffer|);
      && FrameBodies(frames) == Bodies(p, packets[..k])
      && |Flatten(packets[..k])| <= |st.buffer|
      && st'.buffer == st.buffer[|Flatten(packets[..k])|..]
      && st'.discardedBytes == st.discardedBytes && st'.parseErrors == st.parseErrors
    decreases |packets|
  {
    hide Decide, Trim, Total, Drain, FalseStart, WellBehaved;
    DecideAtStart(p, packets, st.buffer);
    var whole := Drain(p, st);
    var done := DrainOnce(p, st, whole);
    var k := Complete(packets, |st.buffer|);
    if k == 0 {
      assert st.buffer[|Flatten(packets[..k])|..] == st.buffer;
      assert whole.0.buffer == st.buffer;
    } else {
      var s := st.Discard(0).Accept(|packets[0]|);
      PrefixTail(packets, st.buffer);
      assert k - 1 == Complete(packets[1..], |s.buffer|) && s.buffer == st.buffer[|packets[0]|..];
      hide IsPrefix, Flatten, Bodies, FrameBodies, Complete, QuietCut;
      DrainClean(p, packets[1..], s);
      DrainCleanJoin(p, packets, k, st.buffer, whole.1, done.1, s.buffer, done.0.buffer);
    }
  }

  lemma {:induction false} ErrorsStay<F>(p: Parser<F>, st: State)
    requires st.Consistent()
    ensures Drain(p, st).0.parseErrors >= st.parseErrors
    decreases |st.buffer|
  {
    hide Decide, Trim, Total;
    var d := Decide(p, st.buffer);
    if d.Resync? {
      ErrorsStay(p, st.Discard(d.drop).CountError());
    } else if d.Packet? {
      ErrorsStay(p, st.Discard(d.drop).Accept(d.length));
    }
  }

  /** A buffer that ends with a false start in view costs a parse error. */
  lemma {:induction false} DrainNoisy<F(!new)>(p: Parser<F>, packets: seq<seq<Byte>>, st: State)
    requires WellBehaved(p) && Accepted(p, packets) && IsPrefix(st.buffer, Flatten(packets)) && st.Consistent()
    requires !QuietCut(p, packets, |st.buffer|)
    ensures Drain(p, st).0.parseErrors > st.parseErrors
    decreases |packets|
  {
    hide Decide, Trim, Total, Drain, FalseStart;
    DecideAtStart(p, packets, st.buffer);
    var rest := DrainOnce(p, st, Drain(p, st));
    if |st.buffer| < |packets[0]| {
      ErrorsStay(p, st.Discard(Decide(p, st.buffer).drop).CountError());
    } else {
      PrefixTail(packets, st.buffer);
      DrainNoisy(p, packets[1..], st.Discard(0).Accept(|packets[0]|));
    }
  }

  /** Putting the first packet in front of what the rest drained to. */
  lemma DrainCleanJoin<F>(p: Parser<F>, packets: seq<seq<Byte>>, k: nat, buffer: seq<Byte>,
                          frames: seq<Frame<F>>, rest: seq<Frame<F>>, after: seq<Byte>, left: seq<Byte>)
    requires 0 < k <= |packets| && Accepted(p, packets) && |packets[0]| <= |buffer| && after == buffer[|packets[0]|..]
    requires |frames| == 1 + |rest| && frames[1..] == rest && frames[0].body == p.parse(packets[0]).value
    requires FrameBodies(rest) == Bodies(p, packets[1..][..k - 1])
    requires |Flatten(packets[1..][..k - 1])| <= |after| && left == after[|Flatten(packets[1..][..k - 1])|..]
    ensures FrameBodies(frames) == Bodies(p, packets[..k])
    ensures |Flatten(packets[..k])| <= |buffer| && left == buffer[|Flatten(packets[..k])|..]
  {
    BodiesCons(p, packets, k, frames, rest);
    assert packets[..k][1..] == packets[1..][..k - 1];
    hide Bodies, FrameBodies, Accepted;
  }

  lemma PrefixTail(packets: seq<seq<Byte>>, b: seq<Byte>)
    requires packets != [] && |packets[0]| <= |b| && IsPrefix(b, Flatten(packets))
    ensures IsPrefix(b[|packets[0]|..], Flatten(packets[1..]))
  {
    assert Flatten(packets)[|packets[0]|..] == Flatten(packets[1..]);
    assert Flatten(packets)[..|b|][|packets[0]|..] == Flatten(packets[1..])[..|b| - |packets[0]|];
  }

  lemma BodiesCons<F>(p: Parser<F>, packets: seq<seq<Byte>>, k: nat, frames: seq<Frame<F>>, rest: seq<Frame<F>>)
    requires 0 < k <= |packets| && Accepted(p, packets)
    requires |frames| == 1 + |rest| && frames[1..] == rest && frames[0].body == p.parse(packets[0]).value
    requires FrameBodies(rest) == Bodies(p, packets[1..][..k - 1])
    ensures FrameBodies(frames) == Bodies(p, packets[..k])
  {
    assert |rest| == |FrameBodies(rest)| == k - 1;
    forall i | 0 <= i < k
      ensures FrameBodies(frames)[i] == Bodies(p, packets[..k])[i]
    {
      if i > 0 {
        assert frames[i] == rest[i - 1] && packets[..k][i] == packets[1..][..k - 1][i - 1];
        assert FrameBodies(rest)[i - 1] == Bodies(p, packets[1..][..k - 1])[i - 1];
      }
    }
  }

  // --- The leading bytes ------------------------------------------------------

  function Shift<F>(d: Decision<F>, m: nat): Decision<F> {
    match d
    case Halt(n) => Halt(m + n)
    case Resync(n) => Resync(m + n)
    case Packet(n, l, body) => Packet(m + n, l, body)
  }

  lemma DecideSkip<F>(p: Parser<F>, b: seq<Byte>)
    requires FindMagic(b, 0) >= 0
    ensures Decide(p, b) == Shift(Decide(p, b[FindMagic(b, 0)..]), FindMagic(b, 0))
  {
    hide Decide, FindMagic, MagicAt, FindNextPlausibleMagic;
    var rest := b[FindMagic(b, 0)..];
    FindAtOwnStart(b);
    DecideFromMagic(p, b);
    DecideFromMagic(p, rest);
    assert rest[0..] == rest;
  }

  /** Bytes in front of the first magic word make no difference but to the discard count. */
  lemma DrainSkip<F>(p: Parser<F>, st: State)
    requires st.Consistent() && FindMagic(st.buffer, 0) >= 0
    ensures Drain(p, st) == Drain(p, st.Discard(FindMagic(st.buffer, 0)))
  {
    hide Decide, FindMagic, MagicAt, Trim, Total, Drain;
    var m := FindMagic(st.buffer, 0);
    DecideSkip(p, st.buffer);
    DiscardTwice(st, m, Decide(p, st.buffer[m..]).drop);
    var whole := DrainOnce(p, st, Drain(p, st));
    var tail := DrainOnce(p, st.Discard(m), Drain(p, st.Discard(m)));
  }

  lemma FindAtOwnStart(b: seq<Byte>)
    requires FindMagic(b, 0) >= 0
    ensures FindMagic(b[FindMagic(b, 0)..], 0) == 0
  {
    var m := FindMagic(b, 0);
    assert b[m..][0..8] == b[m..m + 8];
  }

  lemma DiscardTwice(st: State, a: nat, b: nat)
    requires st.Consistent() && a + b <= |st.buffer|
    ensures st.Discard(a).Discard(b) == st.Discard(a + b)
  {
    TrimAdds(st.segments, a, b);
    assert st.buffer[a..][b..] == st.buffer[a + b..];
  }

  // --- A whole clean capture --------------------------------------------------

  /** How many packets the first `n` bytes of the stream complete. */
  function Done(lead: seq<Byte>, packets: seq<seq<Byte>>, n: nat): (k: nat)
    ensures k <= |packets|
  {
    Complete(packets, n - |lead|)
  }

  /** Where the buffer begins once `n` bytes of the stream have been fed. */
  function Base(lead: seq<Byte>, packets: seq<seq<Byte>>, n: nat): int {
    if n < |lead| + 8 then n - Min(n, 7) else |lead| + |Flatten(packets[..Done(lead, packets, n)])|
  }

  /** The decoder's state after the first `n` bytes, however they were chunked. */
  ghost predicate AtByte(lead: seq<Byte>, packets: seq<seq<Byte>>, n: nat, st: State) {
    var s := lead + Flatten(packets);
    && st.Consistent() && n <= |s| && 0 <= Base(lead, packets, n) <= n
    && st.buffer == s[Base(lead, packets, n)..n]
    && st.discardedBytes == Min(Base(lead, packets, n), |lead|)
    && st.parseErrors == 0
  }

  lemma {:induction false} CompleteBounds(packets: seq<seq<Byte>>, n: nat)
    ensures var k := Complete(packets, n);
      && |Flatten(packets[..k])| <= n
      && (k < |packets| ==> n - |Flatten(packets[..k])| < |packets[k]|)
      && (n >= |Flatten(packets)| ==> k == |packets|)
    decreases |packets|
  {
    var k := Complete(packets, n);
    if k > 0 {
      CompleteBounds(packets[1..], n - |packets[0]|);
      assert packets[..k][1..] == packets[1..][..k - 1];
    }
  }

  lemma {:induction false} CompleteAdds(packets: seq<seq<Byte>>, n: nat, m: nat)
    requires n <= m
    ensures var k := Complete(packets, n);
      && |Flatten(packets[..k])| <= n
      && Complete(packets, m) == k + Complete(packets[k..], m - |Flatten(packets[..k])|)
    decreases |packets|
  {
    var k := Complete(packets, n);
    if k == 0 {
      assert packets[0..] == packets;
    } else {
      CompleteAdds(packets[1..], n - |packets[0]|, m - |packets[0]|);
      assert packets[..k][1..] == packets[1..][..k - 1];
      assert packets[k..] == packets[1..][k - 1..];
    }
  }

  /** What a feed adds: the state moves to byte `m` and the packets completed since appear. */
  ghost predicate Moved<F>(
    p: Parser<F>, lead: seq<Byte>, packets: seq<seq<Byte>>, n: nat, m: nat, result: (State, seq<Frame<F>>))
    requires Accepted(p, packets)
  {
    && AtByte(lead, packets, m, result.0)
    && Done(lead, packets, n) <= Done(lead, packets, m)
    && FrameBodies(result.1) == Bodies(p, packets[Done(lead, packets, n)..Done(lead, packets, m)])
  }

  lemma SliceOfSlice(s: seq<Byte>, from: nat, to: nat, i: nat, j: nat)
    requires from <= to <= |s| && i <= j <= to - from
    ensures s[from..to][i..j] == s[from + i..from + j]
  {
    var a, b := s[from..to][i..j], s[from + i..from + j];
    assert |a| == |b|;
    assert forall k | 0 <= k < |a| :: a[k] == s[from + i + k] == b[k];
  }

  /** The leading bytes and the first packet's start make no magic word together. */
  lemma NoMagicInLead<F(!new)>(p: Parser<F>, lead: seq<Byte>, packets: seq<seq<Byte>>, i: nat)
    requires WellBehaved(p) && Accepted(p, packets) && MagicFree(lead) && packets != [] && i < |lead|
    ensures !MagicAt(lead + Flatten(packets), i)
  {
    var s := lead + Flatten(packets);
    if i + 8 <= |lead| {
      assert lead[i..i + 8] == s[i..i + 8];
      assert !MagicAt(lead, i);
    } else if i + 8 <= |s| {
      assert p.parse(packets[0]).Some?;
      assert s[|lead|] == packets[0][0] == packets[0][0..8][0] == 2;
      assert s[i..i + 8][|lead| - i] == s[|lead|] != MAGIC[|lead| - i];
    }
  }

  /** A slice of the stream that ends before the first magic word is complete holds none. */
  lemma NoMagicYet<F(!new)>(p: Parser<F>, lead: seq<Byte>, packets: seq<seq<Byte>>, base: nat, m: nat)
    requires WellBehaved(p) && Accepted(p, packets) && MagicFree(lead) && packets != []
    requires base <= m <= |lead + Flatten(packets)|
    ensures forall i | base + i < |lead| :: !MagicAt((lead + Flatten(packets))[base..m], i)
  {
    hide Flatten, WellBehaved, Accepted, MagicFree;
    var s := lead + Flatten(packets);
    forall i | base + i < |lead| ensures !MagicAt(s[base..m], i) {
      if 0 <= i && i + 8 <= m - base {
        SliceOfSlice(s, base, m, i, i + 8);
        NoMagicInLead(p, lead, packets, base + i);
      }
    }
  }

  lemma BeforeFirstMagic<F(!new)>(
    p: Parser<F>, lead: seq<Byte>, packets: seq<seq<Byte>>, n: nat, m: nat, st: State, data: seq<Byte>)
    requires WellBehaved(p) && Accepted(p, packets) && MagicFree(lead) && packets != []
    requires AtByte(lead, packets, n, st) && n <= m < |lead| + 8
    requires m <= |lead + Flatten(packets)| && st.Consistent()
    requires data == (lead + Flatten(packets))[Base(lead, packets, n)..m]
    ensures Decide(p, data) == Halt(Base(lead, packets, m) - Base(lead, packets, n))
  {
    hide Decide, Flatten, WellBehaved, Accepted, MagicFree, FindMagic;
    NoMagicYet(p, lead, packets, Base(lead, packets, n), m);
    assert forall i | MagicAt(data, i) :: i + 8 <= |data|;
    hide MagicAt;
    DecideFromMagic(p, data);
    FoundIsMagic(data);
  }

  lemma FoundIsMagic(b: seq<Byte>)
    ensures FindMagic(b, 0) >= 0 ==> MagicAt(b, FindMagic(b, 0))
  {
  }

  lemma FindLead<F(!new)>(p: Parser<F>, lead: seq<Byte>, packets: seq<seq<Byte>>, base: nat, m: nat)
    requires WellBehaved(p) && Accepted(p, packets) && MagicFree(lead) && packets != []
    requires base <= |lead| && |lead| + 8 <= m <= |lead + Flatten(packets)|
    ensures FindMagic((lead + Flatten(packets))[base..m], 0) == |lead| - base
  {
    var s := lead + Flatten(packets);
    var b := s[base..m];
    assert p.parse(packets[0]).Some?;
    assert s[|lead|..|lead| + 8] == packets[0][0..8] == MAGIC;
    SliceOfSlice(s, base, m, |lead| - base, |lead| - base + 8);
    assert MagicAt(b, |lead| - base);
    NoMagicYet(p, lead, packets, base, m);
    hide MagicAt, Flatten, WellBehaved, Accepted, MagicFree;
  }

  /** Whether a cut is quiet is decided among the packets that are not complete yet. */
  lemma {:induction false} QuietSuffix<F>(p: Parser<F>, packets: seq<seq<Byte>>, k: nat, n: int)
    requires k <= Complete(packets, n)
    ensures QuietCut(p, packets, n) == QuietCut(p, packets[k..], n - |Flatten(packets[..k])|)
  {
    hide FalseStart;
    if k == 0 {
      assert packets[0..] == packets;
    } else {
      QuietSuffix(p, packets[1..], k - 1, n - |packets[0]|);
      assert packets[..k][1..] == packets[1..][..k - 1];
      assert packets[1..][k - 1..] == packets[k..];
    }
  }

  lemma SuffixPrefix(lead: seq<Byte>, packets: seq<seq<Byte>>, k: nat, m: nat)
    requires k <= |packets|
    requires |lead| + |Flatten(packets[..k])| <= m <= |lead + Flatten(packets)|
    ensures var b := (lead + Flatten(packets))[|lead| + |Flatten(packets[..k])|..m];
            IsPrefix(b, Flatten(packets[k..]))
  {
    FlattenSplit(packets, k);
    var s, at := lead + Flatten(packets), |lead| + |Flatten(packets[..k])|;
    assert s[at..] == Flatten(packets[k..]);
    assert s[at..m] == s[at..][..m - at];
  }

  lemma FlattenTake(packets: seq<seq<Byte>>, k: nat, j: nat)
    requires k + j <= |packets|
    ensures |Flatten(packets[..k + j])| == |Flatten(packets[..k])| + |Flatten(packets[k..][..j])|
  {
    FlattenSplit(packets[..k + j], k);
    assert packets[..k + j][..k] == packets[..k];
    assert packets[..k + j][k..] == packets[k..][..j];
  }

  lemma TakeNone(packets: seq<seq<Byte>>)
    ensures packets[0..] == packets && Flatten(packets[..0]) == []
  {
  }

  /** From a packet boundary, draining reaches the boundary the bytes allow. */
  lemma DrainToByte<F(!new)>(
    p: Parser<F>, lead: seq<Byte>, packets: seq<seq<Byte>>, k: nat, m: nat, st: State)
    requires WellBehaved(p) && Accepted(p, packets) && k <= |packets|
    requires |lead| + 8 <= m <= |lead + Flatten(packets)| && st.Consistent()
    requires |lead| + |Flatten(packets[..k])| <= m
    requires QuietCut(p, packets[k..], m - |lead| - |Flatten(packets[..k])|)
    requires Done(lead, packets, m) == k + Complete(packets[k..], m - |lead| - |Flatten(packets[..k])|)
    requires st.buffer == (lead + Flatten(packets))[|lead| + |Flatten(packets[..k])|..m]
    requires st.discardedBytes == |lead| && st.parseErrors == 0
    ensures AtByte(lead, packets, m, Drain(p, st).0)
    ensures k <= Done(lead, packets, m)
    ensures FrameBodies(Drain(p, st).1) == Bodies(p, packets[k..Done(lead, packets, m)])
  {
    hide Drain, Flatten, Trim, Total, MagicAt, Complete, IsPrefix, QuietCut;
    SuffixPrefix(lead, packets, k, m);
    var rest := packets[k..];
    DrainClean(p, rest, st);
    var j := Complete(rest, |st.buffer|);
    FlattenTake(packets, k, j);
    assert packets[k..k + j] == rest[..j];
    assert |st.buffer| == m - |lead| - |Flatten(packets[..k])|;
    assert Done(lead, packets, m) == k + j;
    var from, to := |lead| + |Flatten(packets[..k])|, |lead| + |Flatten(packets[..k + j])|;
    assert Base(lead, packets, m) == to;
    assert (lead + Flatten(packets))[from..m][to - from..] == (lead + Flatten(packets))[to..m];
  }

  /** The buffer once a chunk is appended, and that appending it drops nothing. */
  lemma Grown<F>(p: Parser<F>, maxBufferBytes: nat, lead: seq<Byte>, packets: seq<seq<Byte>>, n: nat, st: State, c: Chunk)
    requires AtByte(lead, packets, n, st)
    requires n + |c.data| <= |lead + Flatten(packets)|
    requires c.data == (lead + Flatten(packets))[n..n + |c.data|]
    requires |st.buffer| + |c.data| <= maxBufferBytes
    ensures 0 <= Base(lead, packets, n) <= n
    ensures var grown := Extend(st, c);
      && grown.buffer == (lead + Flatten(packets))[Base(lead, packets, n)..n + |c.data|]
      && grown.discardedBytes == st.discardedBytes == Min(Base(lead, packets, n), |lead|) && grown.parseErrors == 0
      && Feed(p, maxBufferBytes, st, c) == (Drain(p, grown).0.Settle(), Drain(p, grown).1)
  {
    hide Drain, Flatten, Trim, Total, Base;
    assert Extend(st, c).buffer == (lead + Flatten(packets))[Base(lead, packets, n)..n + |c.data|];
  }

  /** One feed that ends in a quiet cut moves on to the next byte. */
  lemma FeedClean<F(!new)>(
    p: Parser<F>, maxBufferBytes: nat, lead: seq<Byte>, packets: seq<seq<Byte>>, n: nat, st: State, c: Chunk)
    requires WellBehaved(p) && Accepted(p, packets) && MagicFree(lead) && packets != []
    requires AtByte(lead, packets, n, st)
    requires n + |c.data| <= |lead + Flatten(packets)|
    requires c.data == (lead + Flatten(packets))[n..n + |c.data|]
    requires |st.buffer| + |c.data| <= maxBufferBytes
    requires QuietCut(p, packets, n + |c.data| - |lead|)
    ensures Moved(p, lead, packets, n, n + |c.data|, Feed(p, maxBufferBytes, st, c))
  {
    hide Drain, Feed, Complete, Flatten, Trim, Total, Done, QuietCut, Base, WellBehaved, Accepted, MagicFree, Bodies, FrameBodies;
    var m, grown := n + |c.data|, Extend(st, c);
    Grown(p, maxBufferBytes, lead, packets, n, st, c);
    if m < |lead| + 8 {
      DrainEarly(p, lead, packets, n, m, st, grown);
    } else {
      DrainLate(p, lead, packets, n, m, grown);
    }
  }

  lemma DrainEarly<F(!new)>(
    p: Parser<F>, lead: seq<Byte>, packets: seq<seq<Byte>>, n: nat, m: nat, before: State, st: State)
    requires WellBehaved(p) && Accepted(p, packets) && MagicFree(lead) && packets != []
    requires AtByte(lead, packets, n, before)
    requires n <= m <= |lead + Flatten(packets)| && m < |lead| + 8 && st.Consistent()
    requires st.buffer == (lead + Flatten(packets))[Base(lead, packets, n)..m]
    requires st.discardedBytes == before.discardedBytes && st.parseErrors == 0
    ensures Moved(p, lead, packets, n, m, Drain(p, st))
  {
    hide Drain, Complete, Decide, Flatten, Trim, Total;
    var s, base, base' := lead + Flatten(packets), Base(lead, packets, n), Base(lead, packets, m);
    NothingDone(p, lead, packets, n);
    NothingDone(p, lead, packets, m);
    BeforeFirstMagic(p, lead, packets, n, m, before, st.buffer);
    var whole := DrainOnce(p, st, Drain(p, st));
    assert s[base..m][base' - base..] == s[base'..m];
    assert packets[0..0] == [] && Bodies(p, packets[0..0]) == [];
  }

  /**
   The packet the buffer begins with once the leading bytes and the packets
   completed by byte `n` are gone, and the state at that point: draining from
   there is draining.
   */
  lemma AtBoundary<F(!new)>(p: Parser<F>, lead: seq<Byte>, packets: seq<seq<Byte>>, n: nat, m: nat, st: State)
    returns (k: nat, st': State)
    requires WellBehaved(p) && Accepted(p, packets) && MagicFree(lead) && packets != []
    requires n <= m <= |lead + Flatten(packets)| && |lead| + 8 <= m && st.Consistent()
    requires 0 <= Base(lead, packets, n) <= n
    requires st.buffer == (lead + Flatten(packets))[Base(lead, packets, n)..m]
    requires st.discardedBytes == Min(Base(lead, packets, n), |lead|)
    ensures k == Done(lead, packets, n) && k <= Complete(packets, m - |lead|)
    ensures st'.Consistent() && Drain(p, st) == Drain(p, st') && st'.parseErrors == st.parseErrors
    ensures |lead| + |Flatten(packets[..k])| <= m
    ensures st'.buffer == (lead + Flatten(packets))[|lead| + |Flatten(packets[..k])|..m]
    ensures st'.discardedBytes == |lead|
    ensures Done(lead, packets, m) == k + Complete(packets[k..], m - |lead| - |Flatten(packets[..k])|)
  {
    hide Drain, Complete, FindMagic, MagicAt, Flatten, Trim, Total;
    var s, base := lead + Flatten(packets), Base(lead, packets, n);
    k := Done(lead, packets, n);
    if n < |lead| + 8 {
      NothingDone(p, lead, packets, n);
      FindLead(p, lead, packets, base, m);
      DrainSkip(p, st);
      TakeNone(packets);
      st' := st.Discard(|lead| - base);
      assert st'.buffer == s[|lead|..m];
    } else {
      CompleteAdds(packets, n - |lead|, m - |lead|);
      st' := st;
    }
  }

  lemma DrainLate<F(!new)>(p: Parser<F>, lead: seq<Byte>, packets: seq<seq<Byte>>, n: nat, m: nat, st: State)
    requires WellBehaved(p) && Accepted(p, packets) && MagicFree(lead) && packets != []
    requires n <= m <= |lead + Flatten(packets)| && |lead| + 8 <= m && st.Consistent()
    requires 0 <= Base(lead, packets, n) <= n
    requires st.buffer == (lead + Flatten(packets))[Base(lead, packets, n)..m]
    requires st.discardedBytes == Min(Base(lead, packets, n), |lead|) && st.parseErrors == 0
    requires QuietCut(p, packets, m - |lead|)
    ensures Moved(p, lead, packets, n, m, Drain(p, st))
  {
    hide Drain, Complete, FindMagic, MagicAt, Flatten, Trim, Total, QuietCut, Base;
    var k, st' := AtBoundary(p, lead, packets, n, m, st);
    QuietSuffix(p, packets, k, m - |lead|);
    DrainToByte(p, lead, packets, k, m, st');
  }

  /** One feed that ends in a cut that is not quiet costs a parse error. */
  lemma FeedNoisy<F(!new)>(
    p: Parser<F>, maxBufferBytes: nat, lead: seq<Byte>, packets: seq<seq<Byte>>, n: nat, st: State, c: Chunk)
    requires WellBehaved(p) && Accepted(p, packets) && MagicFree(lead) && packets != []
    requires AtByte(lead, packets, n, st)
    requires n + |c.data| <= |lead + Flatten(packets)|
    requires c.data == (lead + Flatten(packets))[n..n + |c.data|]
    requires |st.buffer| + |c.data| <= maxBufferBytes
    requires !QuietCut(p, packets, n + |c.data| - |lead|)
    ensures Feed(p, maxBufferBytes, st, c).0.parseErrors > 0
  {
    hide Drain, Feed, Complete, Flatten, Trim, Total, Done, FalseStart, IsPrefix, Base, WellBehaved, Accepted, MagicFree, AtByte,
         QuietCut;
    AtByteBounds(lead, packets, n, st);
    var m, grown := n + |c.data|, Extend(st, c);
    Grown(p, maxBufferBytes, lead, packets, n, st, c);
    NoisyIsLate(p, packets, m - |lead|);
    var k, st' := AtBoundary(p, lead, packets, n, m, grown);
    QuietSuffix(p, packets, k, m - |lead|);
    SuffixPrefix(lead, packets, k, m);
    AcceptedSuffix(p, packets, k);
    DrainNoisy(p, packets[k..], st');
  }

  lemma AcceptedSuffix<F>(p: Parser<F>, packets: seq<seq<Byte>>, k: nat)
    requires Accepted(p, packets) && k <= |packets|
    ensures Accepted(p, packets[k..])
  {
  }

  lemma NoisyIsLate<F>(p: Parser<F>, packets: seq<seq<Byte>>, n: int)
    requires !QuietCut(p, packets, n)
    ensures n >= 8
  {
    if packets != [] && |packets[0]| <= n {
      var rest := n - |packets[0]|;
      NoisyIsLate(p, packets[1..], rest);
    }
  }

  /** Before the first magic word is in, no packet is complete. */
  lemma NothingDone<F(!new)>(p: Parser<F>, lead: seq<Byte>, packets: seq<seq<Byte>>, n: nat)
    requires WellBehaved(p) && Accepted(p, packets) && packets != []
    ensures n < |lead| + 8 ==> Done(lead, packets, n) == 0
  {
    assert p.parse(packets[0]).Some?;
  }

  /** No feed of the run makes the buffer overflow. */
  predicate NeverOverflows<F>(p: Parser<F>, maxBufferBytes: nat, st: State, chunks: seq<Chunk>)
    requires st.Consistent()
    decreases |chunks|
  {
    chunks == [] ||
    (&& |st.buffer| + |chunks[0].data| <= maxBufferBytes
     && NeverOverflows(p, maxBufferBytes, Feed(p, maxBufferBytes, st, chunks[0]).0, chunks[1..]))
  }

  lemma FrameBodiesJoin<F>(p: Parser<F>, packets: seq<seq<Byte>>, a: nat, b: nat, c: nat, xs: seq<Frame<F>>, ys: seq<Frame<F>>)
    requires Accepted(p, packets) && a <= b <= c <= |packets|
    requires FrameBodies(xs) == Bodies(p, packets[a..b]) && FrameBodies(ys) == Bodies(p, packets[b..c])
    ensures FrameBodies(xs + ys) == Bodies(p, packets[a..c])
  {
    assert |xs| == |FrameBodies(xs)| == b - a && |ys| == |FrameBodies(ys)| == c - b;
    forall i | 0 <= i < c - a
      ensures FrameBodies(xs + ys)[i] == Bodies(p, packets[a..c])[i]
    {
      if i < b - a {
        assert FrameBodies(xs)[i] == Bodies(p, packets[a..b])[i];
      } else {
        assert FrameBodies(ys)[i - (b - a)] == Bodies(p, packets[b..c])[i - (b - a)];
      }
    }
  }

  /** Every cut of the split, counted from byte `n`, is quiet. */
  ghost predicate QuietCuts<F>(p: Parser<F>, lead: seq<Byte>, packets: seq<seq<Byte>>, n: nat, chunks: seq<Chunk>)
    decreases |chunks|
  {
    chunks == [] ||
    (&& QuietCut(p, packets, n + |chunks[0].data| - |lead|)
     && QuietCuts(p, lead, packets, n + |chunks[0].data|, chunks[1..]))
  }

  lemma NextChunk(s: seq<Byte>, n: nat, chunks: seq<Chunk>)
    requires chunks != [] && n <= |s| && Data(chunks) == s[n..]
    ensures var m := n + |chunks[0].data|; m <= |s| && chunks[0].data == s[n..m] && Data(chunks[1..]) == s[m..]
  {
    var c := chunks[0];
    assert c.data == (c.data + Data(chunks[1..]))[..|c.data|] == s[n..][..|c.data|];
    assert Data(chunks[1..]) == s[n..][|c.data|..];
  }

  lemma {:induction false} FeedAllClean<F(!new)>(
    p: Parser<F>, maxBufferBytes: nat, lead: seq<Byte>, packets: seq<seq<Byte>>, n: nat, st: State, chunks: seq<Chunk>)
    requires WellBehaved(p) && Accepted(p, packets) && MagicFree(lead) && packets != []
    requires AtByte(lead, packets, n, st) && NeverOverflows(p, maxBufferBytes, st, chunks)
    requires Data(chunks) == (lead + Flatten(packets))[n..] && QuietCuts(p, lead, packets, n, chunks)
    ensures Moved(p, lead, packets, n, |lead + Flatten(packets)|, FeedAll(p, maxBufferBytes, st, chunks))
    decreases |chunks|
  {
    hide Complete, Flatten, AtByte, Done, Bodies, FrameBodies, Feed, QuietCut, Data, MagicFree;
    var s := lead + Flatten(packets);
    AtByteBounds(lead, packets, n, st);
    if chunks == [] {
      NoData();
      assert |s[n..]| == 0;
      assert packets[Done(lead, packets, n)..Done(lead, packets, n)] == [];
      NoBodies(p);
    } else {
      var c := chunks[0];
      NextChunk(s, n, chunks);
      FeedClean(p, maxBufferBytes, lead, packets, n, st, c);
      var first := Feed(p, maxBufferBytes, st, c);
      var m := n + |c.data|;
      FeedAllClean(p, maxBufferBytes, lead, packets, m, first.0, chunks[1..]);
      var rest := FeedAll(p, maxBufferBytes, first.0, chunks[1..]);
      FrameBodiesJoin(p, packets, Done(lead, packets, n), Done(lead, packets, m), Done(lead, packets, |s|), first.1, rest.1);
    }
  }

  lemma NoData()
    ensures Data([]) == []
  {
  }

  lemma {:induction false} FeedAllErrorsStay<F>(p: Parser<F>, maxBufferBytes: nat, st: State, chunks: seq<Chunk>)
    requires st.Consistent()
    ensures FeedAll(p, maxBufferBytes, st, chunks).0.parseErrors >= st.parseErrors
    decreases |chunks|
  {
    if chunks != [] {
      FeedErrorsStay(p, maxBufferBytes, st, chunks[0]);
      hide Feed;
      FeedAllErrorsStay(p, maxBufferBytes, Feed(p, maxBufferBytes, st, chunks[0]).0, chunks[1..]);
    }
  }

  lemma FeedErrorsStay<F>(p: Parser<F>, maxBufferBytes: nat, st: State, c: Chunk)
    requires st.Consistent()
    ensures Feed(p, maxBufferBytes, st, c).0.parseErrors >= st.parseErrors
  {
    hide Drain, Trim, Total;
    var grown := Extend(st, c);
    ErrorsStay(p, if |grown.buffer| > maxBufferBytes then grown.Discard(|grown.buffer| - maxBufferBytes) else grown);
  }

  /** A cut that is not quiet leaves its mark on the whole capture. */
  lemma {:induction false} FeedAllNoisy<F(!new)>(
    p: Parser<F>, maxBufferBytes: nat, lead: seq<Byte>, packets: seq<seq<Byte>>, n: nat, st: State, chunks: seq<Chunk>)
    requires WellBehaved(p) && Accepted(p, packets) && MagicFree(lead) && packets != []
    requires AtByte(lead, packets, n, st) && NeverOverflows(p, maxBufferBytes, st, chunks)
    requires Data(chunks) == (lead + Flatten(packets))[n..] && !QuietCuts(p, lead, packets, n, chunks)
    ensures FeedAll(p, maxBufferBytes, st, chunks).0.parseErrors > 0
    decreases |chunks|
  {
    hide Complete, Flatten, AtByte, Done, Bodies, FrameBodies, Feed, QuietCut, Data, MagicFree;
    var s, c := lead + Flatten(packets), chunks[0];
    var m := n + |c.data|;
    AtByteBounds(lead, packets, n, st);
    NextChunk(s, n, chunks);
    var first := Feed(p, maxBufferBytes, st, c);
    if QuietCut(p, packets, m - |lead|) {
      FeedClean(p, maxBufferBytes, lead, packets, n, st, c);
      FeedAllNoisy(p, maxBufferBytes, lead, packets, m, first.0, chunks[1..]);
    } else {
      FeedNoisy(p, maxBufferBytes, lead, packets, n, st, c);
      FeedAllErrorsStay(p, maxBufferBytes, first.0, chunks[1..]);
    }
  }

  lemma AtByteBounds(lead: seq<Byte>, packets: seq<seq<Byte>>, n: nat, st: State)
    requires AtByte(lead, packets, n, st)
    ensures n <= |lead + Flatten(packets)| && st.Consistent()
  {
  }

  lemma NoBodies<F>(p: Parser<F>)
    ensures FrameBodies<F>([]) == Bodies(p, [])
  {
  }

  // --- One split ----------------------------------------------------------------

  /** `chunks` is a split of the stream that never overflows the buffer. */
  ghost predicate Split<F>(p: Parser<F>, maxBufferBytes: nat, lead: seq<Byte>, packets: seq<seq<Byte>>, chunks: seq<Chunk>) {
    Data(chunks) == lead + Flatten(packets) && NeverOverflows(p, maxBufferBytes, START, chunks)
  }

  /**
   Out come exactly the packets' frames in order, exactly the leading bytes are
   discarded, nothing counts as a parse error and nothing stays buffered.
   */
  ghost predicate Faithful<F>(p: Parser<F>, maxBufferBytes: nat, lead: seq<Byte>, packets: seq<seq<Byte>>, chunks: seq<Chunk>)
    requires Accepted(p, packets)
  {
    var (st, frames) := FeedAll(p, maxBufferBytes, START, chunks);
    && FrameBodies(frames) == Bodies(p, packets)
    && st.discardedBytes == |lead| && st.parseErrors == 0 && st.buffer == []
  }

  /** A split is decoded faithfully if and only if no chunk ends inside a packet with a false start in view. */
  lemma SplitFaithfulIff<F(!new)>(
    p: Parser<F>, maxBufferBytes: nat, lead: seq<Byte>, packets: seq<seq<Byte>>, chunks: seq<Chunk>)
    requires WellBehaved(p) && Accepted(p, packets) && MagicFree(lead) && packets != []
    requires Split(p, maxBufferBytes, lead, packets, chunks)
    ensures Faithful(p, maxBufferBytes, lead, packets, chunks) <==> QuietCuts(p, lead, packets, 0, chunks)
  {
    hide Drain, Complete, Flatten, FrameBodies, Bodies, QuietCuts, Accepted, MagicFree, FeedAll, NeverOverflows;
    var s := lead + Flatten(packets);
    assert s[0..] == s;
    AtByteZero(p, lead, packets);
    if QuietCuts(p, lead, packets, 0, chunks) {
      AtByteEnd(p, lead, packets);
      FeedAllClean(p, maxBufferBytes, lead, packets, 0, START, chunks);
      assert packets[0..|packets|] == packets && packets[..|packets|] == packets;
    } else {
      FeedAllNoisy(p, maxBufferBytes, lead, packets, 0, START, chunks);
    }
  }

  lemma AtByteZero<F(!new)>(p: Parser<F>, lead: seq<Byte>, packets: seq<seq<Byte>>)
    requires WellBehaved(p) && Accepted(p, packets) && packets != []
    ensures AtByte(lead, packets, 0, START) && Done(lead, packets, 0) == 0
  {
    NothingDone(p, lead, packets, 0);
  }

  lemma AtByteEnd<F(!new)>(p: Parser<F>, lead: seq<Byte>, packets: seq<seq<Byte>>)
    requires WellBehaved(p) && Accepted(p, packets) && packets != []
    ensures var n := |lead + Flatten(packets)|;
      n >= |lead| + 8 && Done(lead, packets, n) == |packets| && Base(lead, packets, n) == n
  {
    CompleteBounds(packets, |Flatten(packets)|);
    assert p.parse(packets[0]).Some?;
    assert packets[..|packets|] == packets;
  }

  /** Small chunks cannot overflow: what a feed leaves is shorter than a packet. */
  lemma {:induction false} SmallChunksNeverOverflow<F>(p: Parser<F>, maxBufferBytes: nat, st: State, chunks: seq<Chunk>)
    requires DOCUMENTED_HEADER_SIZE <= p.maxPacketBytes <= maxBufferBytes
    requires st.Consistent() && |st.buffer| < p.maxPacketBytes
    requires forall c | c in chunks :: |c.data| <= maxBufferBytes - p.maxPacketBytes + 1
    ensures NeverOverflows(p, maxBufferBytes, st, chunks)
    decreases |chunks|
  {
    hide Drain, Decide, Trim, Total;
    if chunks != [] {
      assert chunks[0] in chunks;
      SmallChunksNeverOverflow(p, maxBufferBytes, Feed(p, maxBufferBytes, st, chunks[0]).0, chunks[1..]);
    }
  }

  // --- Every split ----------------------------------------------------------------

  ghost predicate NoFalseStarts<F>(p: Parser<F>, packets: seq<seq<Byte>>) {
    forall q, j | q in packets :: !FalseStart(p, q, j)
  }

  lemma {:induction false} NoFalseStartIsQuiet<F>(p: Parser<F>, packets: seq<seq<Byte>>, n: int)
    requires NoFalseStarts(p, packets)
    ensures QuietCut(p, packets, n)
    decreases |packets|
  {
    hide FalseStart;
    if packets != [] && n >= |packets[0]| {
      NoFalseStartIsQuiet(p, packets[1..], n - |packets[0]|);
    }
  }

  lemma {:induction false} QuietEverywhere<F>(p: Parser<F>, lead: seq<Byte>, packets: seq<seq<Byte>>, n: nat, chunks: seq<Chunk>)
    requires NoFalseStarts(p, packets)
    ensures QuietCuts(p, lead, packets, n, chunks)
    decreases |chunks|
  {
    hide FalseStart, NoFalseStarts, QuietCut;
    if chunks != [] {
      NoFalseStartIsQuiet(p, packets, n + |chunks[0].data| - |lead|);
      QuietEverywhere(p, lead, packets, n + |chunks[0].data|, chunks[1..]);
    }
  }

  /** The bytes one by one. */
  function OneByOne(s: seq<Byte>): seq<Chunk> {
    seq(|s|, i requires 0 <= i < |s| => Chunk([s[i]], 0, 0))
  }

  lemma {:induction false} OneByOneData(s: seq<Byte>)
    ensures Data(OneByOne(s)) == s
  {
    if s != [] {
      OneByOneData(s[1..]);
      assert OneByOne(s)[1..] == OneByOne(s[1..]);
    }
  }

  /** Fed byte by byte, every position is a cut. */
  lemma {:induction false} EveryCut<F>(p: Parser<F>, lead: seq<Byte>, packets: seq<seq<Byte>>, s: seq<Byte>, n: nat, m: nat)
    requires n < m <= n + |s| && !QuietCut(p, packets, m - |lead|)
    ensures !QuietCuts(p, lead, packets, n, OneByOne(s))
    decreases |s|
  {
    hide QuietCut;
    assert OneByOne(s)[1..] == OneByOne(s[1..]);
    if m > n + 1 {
      EveryCut(p, lead, packets, s[1..], n + 1, m);
    }
  }

  /** Just behind a false start, inside its packet, a cut is not quiet. */
  lemma {:induction false} NoisyCut<F>(p: Parser<F>, packets: seq<seq<Byte>>, q: seq<Byte>, j: int) returns (n: nat)
    requires q in packets && FalseStart(p, q, j)
    ensures 0 < n < |Flatten(packets)| && !QuietCut(p, packets, n)
    decreases |packets|
  {
    FalseStartInside(p, q, j);
    hide FalseStart;
    if packets[0] == q {
      n := j + 16;
    } else {
      n := NoisyCut(p, packets[1..], q, j);
      n := n + |packets[0]|;
    }
  }

  /**
   Chunking does not matter, every split that never overflows the buffer being
   decoded faithfully, if and only if no packet holds a false start.
   */
  lemma ChunkingHarmlessIff<F(!new)>(p: Parser<F>, maxBufferBytes: nat, lead: seq<Byte>, packets: seq<seq<Byte>>)
    requires WellBehaved(p) && Accepted(p, packets) && MagicFree(lead) && packets != []
    requires DOCUMENTED_HEADER_SIZE <= p.maxPacketBytes <= maxBufferBytes
    ensures (forall chunks | Split(p, maxBufferBytes, lead, packets, chunks) :: Faithful(p, maxBufferBytes, lead, packets, chunks))
      <==> NoFalseStarts(p, packets)
  {
    hide Accepted, MagicFree, WellBehaved, FalseStart, Faithful, Split, QuietCuts;
    if NoFalseStarts(p, packets) {
      forall chunks | Split(p, maxBufferBytes, lead, packets, chunks) ensures Faithful(p, maxBufferBytes, lead, packets, chunks) {
        SplitFaithfulIff(p, maxBufferBytes, lead, packets, chunks);
        QuietEverywhere(p, lead, packets, 0, chunks);
      }
    } else {
      var q, j :| q in packets && FalseStart(p, q, j);
      var chunks := UnfaithfulSplit(p, maxBufferBytes, lead, packets, q, j);
    }
  }

  /** With a false start in some packet, the bytes one by one are not decoded faithfully. */
  lemma UnfaithfulSplit<F(!new)>(p: Parser<F>, maxBufferBytes: nat, lead: seq<Byte>, packets: seq<seq<Byte>>, q: seq<Byte>, j: int)
    returns (chunks: seq<Chunk>)
    requires WellBehaved(p) && Accepted(p, packets) && MagicFree(lead) && packets != []
    requires DOCUMENTED_HEADER_SIZE <= p.maxPacketBytes <= maxBufferBytes
    requires q in packets && FalseStart(p, q, j)
    ensures Split(p, maxBufferBytes, lead, packets, chunks) && !Faithful(p, maxBufferBytes, lead, packets, chunks)
  {
    hide Accepted, MagicFree, WellBehaved, FalseStart, Faithful, QuietCuts, QuietCut, Flatten, NeverOverflows;
    var s := lead + Flatten(packets);
    chunks := OneByOne(s);
    OneByOneData(s);
    SmallChunksNeverOverflow(p, maxBufferBytes, START, chunks);
    var n := NoisyCut(p, packets, q, j);
    EveryCut(p, lead, packets, s, 0, |lead| + n);
    SplitFaithfulIff(p, maxBufferBytes, lead, packets, chunks);
  }

  // --- A packet with a false start --------------------------------------------------

  /** A magic word, four version bytes and a packet length of 40. */
  const HEAD: seq<Byte> := [2, 1, 4, 3, 6, 5, 8, 7, 0, 0, 0, 0, 40, 0, 0, 0]

  /** A packet of the shortest length whose payload looks like another packet's start. */
  const TRICKY: seq<Byte> := HEAD + HEAD + [0, 0, 0, 0, 0, 0, 0, 0]

  const TRICKY_PARSER: Parser<()> := Parser(64, packet => if packet == TRICKY then Some(()) else None)

  lemma HeadBytes(b: seq<Byte>, at: nat)
    requires at + 16 <= |b| && b[at..at + 16] == HEAD
    ensures MagicAt(b, at) && U32At(b, at + 12) == 40
    ensures forall i | at < i < at + 16 && i + 8 <= |b| :: !MagicAt(b, i)
  {
    var h := b[at..at + 16];
    assert h[0] == 2 && h[1] == 1 && h[2] == 4 && h[3] == 3 && h[4] == 6 && h[5] == 5 && h[6] == 8 && h[7] == 7;
    assert h[8] == 0 && h[9] == 0 && h[10] == 0 && h[11] == 0 && h[12] == 40 && h[13] == 0 && h[14] == 0 && h[15] == 0;
    assert b[at..at + 8] == h[0..8] == MAGIC;
    assert b[at + 12] == h[12] && b[at + 13] == h[13] && b[at + 14] == h[14] && b[at + 15] == h[15];
    forall i | at < i < at + 16 && i + 8 <= |b|
      ensures !MagicAt(b, i)
    {
      assert b[i..i + 8][0] == b[i] == h[i - at] != 2;
    }
  }

  /** There are such packets: a well-behaved parser can accept one, which then arrives whole but not byte by byte. */
  lemma ChunkingMatters() returns (chunks: seq<Chunk>)
    ensures WellBehaved(TRICKY_PARSER) && Accepted(TRICKY_PARSER, [TRICKY]) && FalseStart(TRICKY_PARSER, TRICKY, 16)
    ensures Split(TRICKY_PARSER, 64, [], [TRICKY], [Chunk(TRICKY, 0, 0)])
         && Faithful(TRICKY_PARSER, 64, [], [TRICKY], [Chunk(TRICKY, 0, 0)])
    ensures Split(TRICKY_PARSER, 64, [], [TRICKY], chunks) && !Faithful(TRICKY_PARSER, 64, [], [TRICKY], chunks)
  {
    TrickyStarts();
    TrickyWhole();
    assert Accepted(TRICKY_PARSER, [TRICKY]) && MagicFree([]);
    hide FalseStart, Faithful, Split, WellBehaved, MagicAt;
    SplitFaithfulIff(TRICKY_PARSER, 64, [], [TRICKY], [Chunk(TRICKY, 0, 0)]);
    chunks := UnfaithfulSplit(TRICKY_PARSER, 64, [], [TRICKY], TRICKY, 16);
  }

  lemma TrickyStarts()
    ensures WellBehaved(TRICKY_PARSER) && FalseStart(TRICKY_PARSER, TRICKY, 16)
  {
    assert TRICKY[0..16] == HEAD && TRICKY[16..32] == HEAD && |TRICKY| == 40;
    HeadBytes(TRICKY, 0);
    HeadBytes(TRICKY, 16);
    hide MagicAt, U32At;
  }

  lemma TrickyWhole()
    ensures Split(TRICKY_PARSER, 64, [], [TRICKY], [Chunk(TRICKY, 0, 0)])
    ensures QuietCuts(TRICKY_PARSER, [], [TRICKY], 0, [Chunk(TRICKY, 0, 0)])
  {
    hide Feed, FalseStart;
    var c := Chunk(TRICKY, 0, 0);
    assert |TRICKY| == 40;
    assert [TRICKY][1..] == [] && [c][1..] == [];
    assert Flatten([TRICKY]) == TRICKY + Flatten([]) == TRICKY;
    assert Data([c]) == TRICKY + Data([]) == TRICKY;
    assert [] + TRICKY == TRICKY;
    assert NeverOverflows(TRICKY_PARSER, 64, Feed(TRICKY_PARSER, 64, START, c).0, []);
    assert QuietCut(TRICKY_PARSER, [TRICKY], 40) by { assert QuietCut(TRICKY_PARSER, [], 0); }
    assert QuietCuts(TRICKY_PARSER, [], [TRICKY], 40, []);
  }
}
