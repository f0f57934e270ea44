/**
 The turns of the decoder's loop over a whole capture: what they drop, what
 they count, and what the start-up totals are.
 */
module TiStartup {
  import opened Wrappers
  import opened TiStreamDecoder

  // --- What one turn drops -------------------------------------------------------------

  /** A whole packet that the parser accepts begins at `i`. */
  ghost predicate AcceptableAt<F>(p: Parser<F>, b: seq<Byte>, i: int) {
    && 0 <= i && i + 16 <= |b| && MagicAt(b, i) && PlausibleLength(p, U32At(b, i + 12))
    && i + U32At(b, i + 12) <= |b| && p.parse(b[i..i + U32At(b, i + 12)]).Some?
  }

  /** No packet that could be accepted is given up, and an accepted one is the first there is. */
  lemma NothingAcceptableDropped<F>(p: Parser<F>, b: seq<Byte>)
    ensures forall i | 0 <= i < Decide(p, b).drop :: !AcceptableAt(p, b, i)
    ensures Decide(p, b).Packet? ==> AcceptableAt(p, b, Decide(p, b).drop) && Decide(p, b).length == U32At(b, Decide(p, b).drop + 12)
  {
    hide FindMagic, FindNextPlausibleMagic;
    var magic := FindMagic(b, 0);
    FirstMagic(b, 0);
    if magic >= 0 && |b| - magic >= 16 {
      NextIsFirst(p, b, magic + 1);
    }
  }

  /** When the loop stops, what is left holds no packet that could be accepted at its front. */
  lemma HaltKeepsWaiting<F>(p: Parser<F>, b: seq<Byte>)
    requires Decide(p, b).Halt?
    ensures var drop := Decide(p, b).drop;
      && !AcceptableAt(p, b, drop)
      && (MagicAt(b, drop) || (|b| - drop < 8 && (forall i | 0 <= i < |b| :: !MagicAt(b, i)) && (drop == 0 || |b| - drop == 7)))
  {
    hide FindMagic, FindNextPlausibleMagic;
    FirstMagic(b, 0);
  }

  lemma {:induction false} FirstMagic(b: seq<Byte>, from: nat)
    ensures var r := FindMagic(b, from);
      && (r >= 0 ==> from <= r < |b| && MagicAt(b, r))
      && forall i | from <= i && (r < 0 || i < r) :: !MagicAt(b, i)
    decreases |b| - from
  {
    if from + 8 <= |b| && !MagicAt(b, from) {
      FirstMagic(b, from + 1);
    }
  }

  lemma {:induction false} NextIsFirst<F>(p: Parser<F>, b: seq<Byte>, from: nat)
    ensures var r := FindNextPlausibleMagic(p, b, from);
      && (r >= 0 ==> from <= r && r + 16 <= |b|)
      && forall i | from <= i && i < r :: !AcceptableAt(p, b, i)
    decreases |b| - from
  {
    hide FindMagic, MagicAt;
    FirstMagic(b, from);
    var index := FindMagic(b, from);
    if index >= 0 && |b| >= index + 16 && !PlausibleLength(p, U32At(b, index + 12)) {
      NextIsFirst(p, b, index + 1);
    }
  }

  // --- The turns of a capture ------------------------------------------------------------

  /** A turn of the loop: the state it found, and what it decided. */
  datatype Turn<F> = Turn(before: State, decision: Decision<F>)

  function Turns<F>(p: Parser<F>, st: State): seq<Turn<F>>
    requires st.Consistent()
    decreases |st.buffer|
  {
    var d := Decide(p, st.buffer);
    [Turn(st, d)] + match d
                    case Halt(_) => []
                    case Resync(drop) => Turns(p, st.Discard(drop).CountError())
                    case Packet(drop, length, _) => Turns(p, st.Discard(drop).Accept(length))
  }

  /** The state the loop starts from: the new bytes appended, and the front given up where they are too many. */
  function Kept(maxBufferBytes: nat, st: State, c: Chunk): (r: State)
    requires st.Consistent()
    ensures r.Consistent()
  {
    var grown := Extend(st, c);
    if |grown.buffer| > maxBufferBytes then grown.Discard(|grown.buffer| - maxBufferBytes) else grown
  }

  /** The buffer keeps the last `maxBufferBytes` bytes, and only the front is given up and counted. */
  lemma OverflowKeepsLast<F>(p: Parser<F>, maxBufferBytes: nat, st: State, c: Chunk)
    requires st.Consistent()
    ensures var kept, whole := Kept(maxBufferBytes, st, c), st.buffer + c.data;
      && |kept.buffer| == Min(|whole|, maxBufferBytes) && kept.buffer == whole[|whole| - |kept.buffer|..]
      && kept.discardedBytes == st.discardedBytes + |whole| - |kept.buffer| && kept.parseErrors == st.parseErrors
    ensures Feed(p, maxBufferBytes, st, c) == (Drain(p, Kept(maxBufferBytes, st, c)).0.Settle(), Drain(p, Kept(maxBufferBytes, st, c)).1)
  {
    hide Drain, Trim, Total;
  }

  function AllTurns<F>(p: Parser<F>, maxBufferBytes: nat, st: State, chunks: seq<Chunk>): seq<Turn<F>>
    requires st.Consistent()
    decreases |chunks|
  {
    if chunks == [] then []
    else
      Turns(p, Kept(maxBufferBytes, st, chunks[0])) + AllTurns(p, maxBufferBytes, Feed(p, maxBufferBytes, st, chunks[0]).0, chunks[1..])
  }

  function Errors<F>(turns: seq<Turn<F>>): nat {
    if turns == [] then 0 else (if turns[0].decision.Resync? then 1 else 0) + Errors(turns[1..])
  }

  /** The first turn that accepted a packet. */
  ghost predicate FirstPacket<F>(turns: seq<Turn<F>>, k: int) {
    0 <= k < |turns| && turns[k].decision.Packet? && forall m | 0 <= m < k :: !turns[m].decision.Packet?
  }

  lemma {:induction false} ErrorsAppend<F>(a: seq<Turn<F>>, b: seq<Turn<F>>)
    ensures Errors(a + b) == Errors(a) + Errors(b)
  {
    if a == [] {
      assert a + b == b;
    } else {
      ErrorsAppend(a[1..], b);
      assert (a + b)[1..] == a[1..] + b;
    }
  }

  // --- Totals -------------------------------------------------------------------------------

  /** From a state before the first frame: what the turns make of the totals. */
  ghost predicate Unsynced<F>(st: State, turns: seq<Turn<F>>, after: State) {
    && (forall k | FirstPacket(turns, k) ::
          && after.synchronized && after.startupErrors == turns[k].before.parseErrors == st.parseErrors + Errors(turns[..k])
          && after.startupDiscarded == turns[k].before.discardedBytes + turns[k].decision.drop)
    && ((forall k | 0 <= k < |turns| :: !turns[k].decision.Packet?) ==> !after.synchronized)
  }

  ghost predicate Totals<F>(st: State, turns: seq<Turn<F>>, after: State) {
    && after.parseErrors == st.parseErrors + Errors(turns)
    && (if st.synchronized then
          after.synchronized && after.startupErrors == st.startupErrors && after.startupDiscarded == st.startupDiscarded
        else Unsynced(st, turns, after))
  }

  lemma {:induction false} DrainTotals<F>(p: Parser<F>, st: State)
    requires st.Consistent()
    ensures Totals(st, Turns(p, st), Drain(p, st).0)
    decreases |st.buffer|
  {
    hide Decide, Trim, Total, Totals;
    match Decide(p, st.buffer)
    case Halt(drop) =>
      HaltTotals(st, Turn(st, Decide(p, st.buffer)), st.Discard(drop));
    case Resync(drop) =>
      DrainTotals(p, st.Discard(drop).CountError());
      ResyncTotals(st, Turn(st, Decide(p, st.buffer)), st.Discard(drop).CountError(), Turns(p, st.Discard(drop).CountError()), Drain(p, st).0);
    case Packet(drop, length, _) =>
      DrainTotals(p, st.Discard(drop).Accept(length));
      PacketTotals(st, Turn(st, Decide(p, st.buffer)), st.Discard(drop).Accept(length), Turns(p, st.Discard(drop).Accept(length)), Drain(p, st).0);
  }

  lemma HaltTotals<F>(st: State, t: Turn<F>, after: State)
    requires t.decision.Halt? && after.parseErrors == st.parseErrors && after.synchronized == st.synchronized
    requires after.startupErrors == st.startupErrors && after.startupDiscarded == st.startupDiscarded
    ensures Totals(st, [t] + [], after)
  {
  }

  lemma ResyncTotals<F>(st: State, t: Turn<F>, next: State, rest: seq<Turn<F>>, after: State)
    requires t.decision.Resync? && next.parseErrors == st.parseErrors + 1 && next.synchronized == st.synchronized
    requires next.startupErrors == st.startupErrors && next.startupDiscarded == st.startupDiscarded
    requires Totals(next, rest, after)
    ensures Totals(st, [t] + rest, after)
  {
    var turns := [t] + rest;
    assert turns[1..] == rest;
    if !st.synchronized {
      forall k | FirstPacket(turns, k)
        ensures FirstPacket(rest, k - 1) && turns[k] == rest[k - 1] && Errors(turns[..k]) == 1 + Errors(rest[..k - 1])
      {
        assert turns[..k][1..] == rest[..k - 1];
        assert forall m | 0 <= m < k - 1 :: rest[m] == turns[m + 1];
      }
      if forall k | 0 <= k < |turns| :: !turns[k].decision.Packet? {
        assert forall k | 0 <= k < |rest| :: rest[k] == turns[k + 1];
      }
    }
  }

  lemma PacketTotals<F>(st: State, t: Turn<F>, next: State, rest: seq<Turn<F>>, after: State)
    requires t.before == st && t.decision.Packet? && next.parseErrors == st.parseErrors && next.synchronized
    requires next.startupErrors == if st.synchronized then st.startupErrors else st.parseErrors
    requires next.startupDiscarded == if st.synchronized then st.startupDiscarded else st.discardedBytes + t.decision.drop
    requires Totals(next, rest, after)
    ensures Totals(st, [t] + rest, after)
  {
    var turns := [t] + rest;
    assert turns[1..] == rest;
    if !st.synchronized {
      assert turns[0].decision.Packet?;
      forall k | FirstPacket(turns, k) ensures k == 0 && turns[..k] == [] {
      }
    }
  }

  /** Before the first frame the start-up totals are the totals so far. */
  predicate Settled(st: State) {
    !st.synchronized ==> st.startupDiscarded == st.discardedBytes && st.startupErrors == st.parseErrors
  }

  lemma {:induction false} FeedAllTotals<F>(p: Parser<F>, maxBufferBytes: nat, st: State, chunks: seq<Chunk>)
    requires st.Consistent() && Settled(st)
    ensures var after := FeedAll(p, maxBufferBytes, st, chunks).0;
      Settled(after) && Totals(st, AllTurns(p, maxBufferBytes, st, chunks), after)
    decreases |chunks|
  {
    hide Drain, Turns, Feed, Totals;
    if chunks == [] {
      NoTurns<F>(st);
    } else {
      var c, kept := chunks[0], Kept(maxBufferBytes, st, chunks[0]);
      OverflowKeepsLast(p, maxBufferBytes, st, c);
      DrainTotals(p, kept);
      KeptKeeps(maxBufferBytes, st, c);
      SettleTotals(st, kept, Turns(p, kept), Drain(p, kept).0);
      var first := Feed(p, maxBufferBytes, st, c).0;
      FeedAllTotals(p, maxBufferBytes, first, chunks[1..]);
      TotalsJoin(st, Turns(p, kept), first, AllTurns(p, maxBufferBytes, first, chunks[1..]), FeedAll(p, maxBufferBytes, st, chunks).0);
    }
  }

  lemma KeptKeeps(maxBufferBytes: nat, st: State, c: Chunk)
    requires st.Consistent()
    ensures var kept := Kept(maxBufferBytes, st, c);
      && kept.parseErrors == st.parseErrors && kept.synchronized == st.synchronized
      && kept.startupErrors == st.startupErrors && kept.startupDiscarded == st.startupDiscarded
  {
    hide Trim, Total;
  }

  lemma NoTurns<F>(st: State)
    ensures Totals<F>(st, [], st)
  {
  }

  lemma SettleTotals<F>(st: State, kept: State, turns: seq<Turn<F>>, drained: State)
    requires kept.parseErrors == st.parseErrors && kept.synchronized == st.synchronized
    requires kept.startupErrors == st.startupErrors && kept.startupDiscarded == st.startupDiscarded
    requires Totals(kept, turns, drained)
    ensures Settled(drained.Settle()) && Totals(st, turns, drained.Settle())
  {
  }

  lemma TotalsJoin<F>(st: State, a: seq<Turn<F>>, mid: State, b: seq<Turn<F>>, after: State)
    requires Totals(st, a, mid) && Totals(mid, b, after)
    ensures Totals(st, a + b, after)
  {
    hide Errors;
    ErrorsAppend(a, b);
    if !st.synchronized {
      var turns := a + b;
      forall k | FirstPacket(turns, k)
        ensures k < |a| ==> FirstPacket(a, k) && turns[..k] == a[..k]
        ensures k >= |a| ==> FirstPacket(b, k - |a|) && turns[..k] == a + b[..k - |a|]
        ensures k >= |a| ==> Errors(turns[..k]) == Errors(a) + Errors(b[..k - |a|])
      {
        if k >= |a| {
          ErrorsAppend(a, b[..k - |a|]);
          assert forall m | 0 <= m < k - |a| :: b[m] == turns[m + |a|];
        }
        assert forall m | 0 <= m < |a| :: a[m] == turns[m];
      }
      if k :| FirstPacket(turns, k) && k >= |a| {
        assert forall m | 0 <= m < |a| :: a[m] == turns[m];
      }
      if forall k | 0 <= k < |turns| :: !turns[k].decision.Packet? {
        assert forall m | 0 <= m < |a| :: a[m] == turns[m];
        assert forall m | 0 <= m < |b| :: b[m] == turns[m + |a|];
      }
    }
  }

  /**
   Start-up totals of any capture: the bytes discarded and the errors counted
   before the first frame, or so far while there is none.  An error is counted
   exactly for every turn that gave up a start it had found.
   */
  lemma StartupTotals<F>(p: Parser<F>, maxBufferBytes: nat, chunks: seq<Chunk>)
    ensures var turns, after := AllTurns(p, maxBufferBytes, START, chunks), FeedAll(p, maxBufferBytes, START, chunks).0;
      && after.parseErrors == Errors(turns)
      && (forall k | FirstPacket(turns, k) ::
            && after.startupErrors == Errors(turns[..k])
            && after.startupDiscarded == turns[k].before.discardedBytes + turns[k].decision.drop)
      && ((forall k | 0 <= k < |turns| :: !turns[k].decision.Packet?) ==>
            !after.synchronized && after.startupErrors == after.parseErrors && after.startupDiscarded == after.discardedBytes)
  {
    FeedAllTotals(p, maxBufferBytes, START, chunks);
    hide FeedAll, AllTurns, Errors, FirstPacket;
  }
}
