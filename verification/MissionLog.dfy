/**
 The mission recorder and its reader (sensors/mission_log.py): one background
 thread appends encoded records to a file, a bounded queue feeds it, and the
 reader validates what a crash left behind.

 The JSON codec is a parameter; control characters inside strings are escaped
 (section 7 of RFC 8259), so an encoded record has no newline in it.
 */
module MissionLog {
  import opened Wrappers

  const RETURN: Byte := 13

  /** A sensor record: the mission it belongs to, and everything else. */
  datatype SensorRecord = SensorRecord(missionId: string, body: seq<int>)

  datatype LogEntry = LogEntry(logSeq: nat, rec: SensorRecord)

  datatype Codec = Codec(encode: LogEntry -> Bytes, decode: Bytes -> Option<LogEntry>)
  {
    ghost predicate Faithful() {
      forall e: LogEntry ::
        && decode(encode(e)) == Some(e)
        && encode(e) != [] && NEWLINE !in encode(e) && encode(e)[|encode(e)| - 1] != RETURN
    }
  }

  // --- Writer -------------------------------------------------------------------

  datatype Limits = Limits(queueRecords: nat, queueBytes: nat, recordBytes: nat)

  datatype Pending = Pending(logSeq: nat, data: Bytes, critical: bool)

  /** What the background thread is doing. */
  datatype Thread =
    | Waiting
    | Writing(pending: Pending, offset: nat)
    | Stopped

  datatype State = State(
    queue: seq<Pending>, queuedBytes: int, outstanding: int,
    nextSeq: nat, accepted: nat, written: nat, dropped: nat,
    closing: bool, closed: bool, failed: bool, mission: Option<string>,
    confirmed: set<nat>, broken: set<nat>,      // critical writes whose event is set, without and with an error
    file: Bytes, synced: nat,                   // the part of the file known to be durable
    thread: Thread)

  const OPENED := State([], 0, 0, 1, 0, 0, 0, false, false, false, None, {}, {}, [], 0, Waiting)

  datatype Outcome = Done(logSeq: nat) | Dropped | Unavailable | TooLarge | MissionMixed | NotYet | Failed

  predicate Fits(l: Limits, s: State, size: nat) {
    s.outstanding < l.queueRecords && s.queuedBytes + size <= l.queueBytes
  }

  function Enqueued(s: State, p: Pending, missionId: string): State {
    s.(queue := s.queue + [p], queuedBytes := s.queuedBytes + |p.data|, outstanding := s.outstanding + 1,
       nextSeq := s.nextSeq + 1, accepted := s.accepted + 1, mission := Some(missionId))
  }

  /** `submit` (not critical) and the part of `write_critical` up to the enqueue. */
  function Offer(c: Codec, l: Limits, s: State, r: SensorRecord, critical: bool): (State, Outcome) {
    if s.failed || s.closing || s.closed then (s, Unavailable)
    else
      var data := c.encode(LogEntry(s.nextSeq, r));
      if |data| > l.recordBytes then (s, TooLarge)
      else if !Fits(l, s, |data|) then
        if critical then (s, NotYet) else (s.(dropped := s.dropped + 1), Dropped)
      else if s.mission.Some? && s.mission.value != r.missionId then (s, MissionMixed)
      else (Enqueued(s, Pending(s.nextSeq, data, critical), r.missionId), Done(s.nextSeq))
  }

  /** The end of `write_critical` for an enqueued record. */
  function Confirm(s: State, logSeq: nat): Outcome {
    if logSeq !in s.confirmed + s.broken then NotYet
    else if logSeq in s.broken || s.failed then Failed
    else Done(logSeq)
  }

  function TotalBytes(q: seq<Pending>): nat {
    if q == [] then 0 else TotalBytes(q[..|q| - 1]) + |q[|q| - 1].data|
  }

  function Criticals(q: seq<Pending>): set<nat> {
    set p | p in q && p.critical :: p.logSeq
  }

  lemma OneMore(q: seq<Pending>, i: nat)
    requires i < |q|
    ensures TotalBytes(q[..i + 1]) == TotalBytes(q[..i]) + |q[i].data|
    ensures Criticals(q[..i + 1]) == Criticals(q[..i]) + if q[i].critical then {q[i].logSeq} else {}
    ensures q[i..][1..] == q[i + 1..] && q[i..][0] == q[i]
  {
    assert q[..i + 1] == q[..i] + [q[i]];
  }

  /** `close` up to the join. */
  function BeginClose(s: State, drain: bool): State {
    if s.closed then s
    else if drain then s.(closing := true)
    else s.(closing := true, queue := [], dropped := s.dropped + |s.queue|,
            queuedBytes := s.queuedBytes - TotalBytes(s.queue), outstanding := s.outstanding - |s.queue|,
            broken := s.broken + Criticals(s.queue))
  }

  /** The thread's moves. */
  datatype Move =
    | Pop                     // take the next record, or stop when closing with nothing left
    | Write(n: nat)           // the file accepts n bytes of the current buffer
    | Complete                // line written (and synced when critical)
    | Break                   // a write, a sync or closing the file fails

  function LineOf(p: Pending): Bytes {
    p.data + [NEWLINE]
  }

  /** The data and its newline are written by separate calls. */
  predicate CanWrite(t: Thread, n: nat) {
    t.Writing? && 0 < n && t.offset + n <= (if t.offset < |t.pending.data| then |t.pending.data| else |LineOf(t.pending)|)
  }

  function Moved(s: State, m: Move): State {
    match m
    case Pop =>
      if !s.thread.Waiting? then s
      else if s.queue != [] then s.(queue := s.queue[1..], thread := Writing(s.queue[0], 0))
      else if s.closing then s.(synced := |s.file|, thread := Stopped)
      else s
    case Write(n) =>
      if CanWrite(s.thread, n) then
        s.(file := s.file + LineOf(s.thread.pending)[s.thread.offset..s.thread.offset + n],
           thread := Writing(s.thread.pending, s.thread.offset + n))
      else s
    case Complete =>
      if s.thread.Writing? && s.thread.offset == |LineOf(s.thread.pending)| then
        var p := s.thread.pending;
        s.(written := s.written + 1, queuedBytes := s.queuedBytes - |p.data|, outstanding := s.outstanding - 1,
           synced := if p.critical then |s.file| else s.synced,
           confirmed := if p.critical then s.confirmed + {p.logSeq} else s.confirmed, thread := Waiting)
      else s
    case Break =>
      if s.thread.Stopped? then s.(failed := true)
      else
        s.(failed := true, queue := [], queuedBytes := 0, outstanding := 0, thread := Stopped,
           broken := s.broken + Criticals(s.queue)
                     + (if s.thread.Writing? && s.thread.pending.critical then {s.thread.pending.logSeq} else {}))
  }

  // --- Writer object --------------------------------------------------------------

  /**
   Each method is one section the original runs under its lock, or one action of
   the background thread.
   */
  class MissionLogWriter {
    const codec: Codec
    const limits: Limits
    var queue: seq<Pending>
    var queuedBytes: int
    var outstanding: int
    var nextSeq: nat
    var accepted: nat
    var written: nat
    var dropped: nat
    var closing: bool
    var closed: bool
    var failed: bool
    var mission: Option<string>
    var confirmed: set<nat>
    var broken: set<nat>
    var file: Bytes
    var synced: nat
    var thread: Thread

    ghost function View(): State
      reads this
    {
      State(queue, queuedBytes, outstanding, nextSeq, accepted, written, dropped, closing, closed, failed, mission,
            confirmed, broken, file, synced, thread)
    }

    constructor (codec: Codec, limits: Limits)
      ensures View() == OPENED && this.codec == codec && this.limits == limits
    {
      this.codec, this.limits := codec, limits;
      queue, queuedBytes, outstanding := [], 0, 0;
      nextSeq, accepted, written, dropped := 1, 0, 0, 0;
      closing, closed, failed, mission := false, false, false, None;
      confirmed, broken, file, synced, thread := {}, {}, [], 0, Waiting;
    }

    method Enqueue(p: Pending, missionId: string)
      modifies this
      ensures View() == Enqueued(old(View()), p, missionId)
    {
      queue := queue + [p];
      queuedBytes := queuedBytes + |p.data|;
      outstanding := outstanding + 1;
      nextSeq := nextSeq + 1;
      accepted := accepted + 1;
      mission := Some(missionId);
    }

    method Submit(r: SensorRecord) returns (o: Outcome)
      modifies this
      ensures (View(), o) == Offer(codec, limits, old(View()), r, false)
    {
      if failed || closing || closed {
        return Unavailable;
      }
      var data := codec.encode(LogEntry(nextSeq, r));
      if |data| > limits.recordBytes {
        return TooLarge;
      }
      if !(outstanding < limits.queueRecords && queuedBytes + |data| <= limits.queueBytes) {
        dropped := dropped + 1;
        return Dropped;
      }
      if mission.Some? && mission.value != r.missionId {
        return MissionMixed;
      }
      o := Done(nextSeq);
      Enqueue(Pending(nextSeq, data, false), r.missionId);
    }

    method WriteCritical(r: SensorRecord) returns (o: Outcome)
      modifies this
      ensures (View(), o) == Offer(codec, limits, old(View()), r, true)
    {
      if failed || closing || closed {
        return Unavailable;
      }
      var data := codec.encode(LogEntry(nextSeq, r));
      if |data| > limits.recordBytes {
        return TooLarge;
      }
      if !(outstanding < limits.queueRecords && queuedBytes + |data| <= limits.queueBytes) {
        return NotYet;
      }
      if mission.Some? && mission.value != r.missionId {
        return MissionMixed;
      }
      o := Done(nextSeq);
      Enqueue(Pending(nextSeq, data, true), r.missionId);
    }

    method Close(drain: bool)
      modifies this
      ensures View() == BeginClose(old(View()), drain)
    {
      if closed {
        return;
      }
      closing := true;
      if !drain {
        DropQueued();
      }
    }

    method DropQueued()
      modifies this`queue, this`queuedBytes, this`outstanding, this`dropped, this`broken
      ensures queue == [] && dropped == old(dropped) + |old(queue)|
      ensures queuedBytes == old(queuedBytes) - TotalBytes(old(queue))
      ensures outstanding == old(outstanding) - |old(queue)|
      ensures broken == old(broken) + Criticals(old(queue))
    {
      ghost var q, i := queue, 0;
      assert TotalBytes(q[..0]) == 0 && Criticals(q[..0]) == {};
      hide Criticals, TotalBytes;
      while queue != []
        invariant i <= |q| && queue == q[i..]
        invariant dropped == old(dropped) + i && outstanding == old(outstanding) - i
        invariant queuedBytes == old(queuedBytes) - TotalBytes(q[..i])
        invariant broken == old(broken) + Criticals(q[..i])
      {
        OneMore(q, i);
        var pending := queue[0];
        queue := queue[1..];
        dropped := dropped + 1;
        queuedBytes := queuedBytes - |pending.data|;
        outstanding := outstanding - 1;
        if pending.critical {
          broken := broken + {pending.logSeq};
        }
        i := i + 1;
      }
      assert q[..i] == q;
    }

    method TakeNext()
      modifies this
      ensures View() == Moved(old(View()), Pop)
    {
      if thread.Waiting? {
        if queue != [] {
          thread, queue := Writing(queue[0], 0), queue[1..];
        } else if closing {
          synced, thread := |file|, Stopped;
        }
      }
    }

    method WriteSome(n: nat)
      requires CanWrite(thread, n)
      modifies this`file, this`thread
      ensures View() == Moved(old(View()), Write(n))
    {
      file := file + LineOf(thread.pending)[thread.offset..thread.offset + n];
      thread := Writing(thread.pending, thread.offset + n);
    }

    method CompleteLine()
      requires thread.Writing? && thread.offset == |LineOf(thread.pending)|
      modifies this
      ensures View() == Moved(old(View()), Complete)
    {
      var pending := thread.pending;
      if pending.critical {
        synced := |file|;
        confirmed := confirmed + {pending.logSeq};
      }
      written := written + 1;
      queuedBytes := queuedBytes - |pending.data|;
      outstanding := outstanding - 1;
      thread := Waiting;
    }

    method FailThread()
      modifies this
      ensures View() == Moved(old(View()), Break)
    {
      hide Criticals;
      failed := true;
      if thread.Stopped? {
        return;
      }
      BreakActive();
      BreakQueued();
      queuedBytes, outstanding, thread := 0, 0, Stopped;
    }

    method BreakActive()
      modifies this`broken
      ensures broken == old(broken) + if thread.Writing? && thread.pending.critical then {thread.pending.logSeq} else {}
    {
      if thread.Writing? && thread.pending.critical {
        broken := broken + {thread.pending.logSeq};
      }
    }

    method BreakQueued()
      modifies this`queue, this`broken
      ensures queue == [] && broken == old(broken) + Criticals(old(queue))
    {
      ghost var q, i := queue, 0;
      assert Criticals(q[..0]) == {};
      hide Criticals;
      while queue != []
        invariant i <= |q| && queue == q[i..] && broken == old(broken) + Criticals(q[..i])
      {
        OneMore(q, i);
        var pending := queue[0];
        queue := queue[1..];
        if pending.critical {
          broken := broken + {pending.logSeq};
        }
        i := i + 1;
      }
      assert q[..i] == q;
    }
  }

  // --- Reader -----------------------------------------------------------------------

  datatype ReadError = LineTooLong | Incomplete | InvalidRecord | SequenceGap

  /** The entries yielded, and the error that ended the iteration, if any. */
  datatype ReadResult = ReadResult(entries: seq<LogEntry>, error: Option<ReadError>)

  /** Length of what `readline(limit)` returns: through the first newline, at most `limit` bytes. */
  function LineLength(raw: Bytes, limit: nat): (n: nat)
    requires limit > 0
    ensures n <= |raw| && n <= limit && (raw != [] ==> n > 0)
    ensures forall i | 0 <= i < n - 1 :: raw[i] != NEWLINE
    ensures n < |raw| && n < limit ==> n > 0 && raw[n - 1] == NEWLINE
  {
    if raw == [] then 0
    else if raw[0] == NEWLINE || limit == 1 then 1
    else 1 + LineLength(raw[1..], limit - 1)
  }

  function WithoutReturn(line: Bytes): Bytes {
    if line != [] && line[|line| - 1] == RETURN then line[..|line| - 1] else line
  }

  /** One round of the reader: an entry and the bytes it took, or the end. */
  datatype Round = Entry(entry: LogEntry, size: nat) | End(error: Option<ReadError>)

  function ReadRound(c: Codec, raw: Bytes, expected: nat, maxLine: nat, recover: bool): (r: Round)
    ensures r.Entry? ==> 0 < r.size <= |raw|
  {
    var n := LineLength(raw, maxLine + 2);
    if n == 0 then End(None)
    else if n > maxLine then End(Some(LineTooLong))
    else if raw[n - 1] != NEWLINE then End(if recover then None else Some(Incomplete))
    else match c.decode(WithoutReturn(raw[..n - 1]))
      case None => End(Some(InvalidRecord))
      case Some(e) => if e.logSeq != expected then End(Some(SequenceGap)) else Entry(e, n)
  }

  function Read(c: Codec, raw: Bytes, expected: nat, maxLine: nat, recover: bool): ReadResult
    decreases |raw|
  {
    match ReadRound(c, raw, expected, maxLine, recover)
    case End(error) => ReadResult([], error)
    case Entry(e, n) =>
      var rest := Read(c, raw[n..], expected + 1, maxLine, recover);
      ReadResult([e] + rest.entries, rest.error)
  }

  /** `iter_mission_log`. */
  method IterMissionLog(c: Codec, raw: Bytes, maxLine: nat, recover: bool) returns (r: ReadResult)
    ensures r == Read(c, raw, 1, maxLine, recover)
  {
    hide ReadRound;
    var rest, expected, entries := raw, 1, [];
    while true
      invariant entries + Read(c, rest, expected, maxLine, recover).entries == Read(c, raw, 1, maxLine, recover).entries
      invariant Read(c, rest, expected, maxLine, recover).error == Read(c, raw, 1, maxLine, recover).error
      decreases |rest|
    {
      var round := ReadRound(c, rest, expected, maxLine, recover);
      if round.End? {
        return ReadResult(entries, round.error);
      }
      entries := entries + [round.entry];
      rest, expected := rest[round.size..], expected + 1;
    }
  }
}
