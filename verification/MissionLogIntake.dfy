/** What the mission recorder takes in, refuses and drops over a run, and what its reader makes of any bytes. */
module MissionLogIntake {
  import opened Wrappers
  import opened MissionLog
  import opened MissionLogRuns

  // --- One mission --------------------------------------------------------------

  /** All records carry one mission, and the writer is bound to it from the first on. */
  ghost predicate OneMission(w: World) {
    && w.s.mission == (if w.records == [] then None else Some(w.records[0].missionId))
    && forall i | 0 <= i < |w.records| :: w.records[i].missionId == w.records[0].missionId
  }

  lemma StepKeepsMission(c: Codec, l: Limits, w: World, a: Label)
    requires OneMission(w)
    ensures OneMission(Step(c, l, w, a))
  {
    hide Criticals, TotalBytes, LineOf, CanWrite;
  }

  lemma {:induction false} AllOneMission(c: Codec, l: Limits, run: seq<Label>)
    ensures OneMission(Reached(c, l, run))
  {
    if run != [] {
      AllOneMission(c, l, run[..|run| - 1]);
      hide Step, OneMission;
      StepKeepsMission(c, l, Reached(c, l, run[..|run| - 1]), run[|run| - 1]);
    }
  }

  // --- Open, failed, closing -------------------------------------------------------

  lemma {:induction false} UnavailableIff(c: Codec, l: Limits, run: seq<Label>)
    ensures var s := Reached(c, l, run).s;
      && (s.failed <==> ThreadMoves(Break) in run)
      && (s.closing || s.closed <==> exists drain :: Close(drain) in run)
  {
    if run != [] {
      var front, last := run[..|run| - 1], run[|run| - 1];
      assert run == front + [last];
      UnavailableIff(c, l, front);
      StepFlags(c, l, Reached(c, l, front), last);
      hide Step;
      if last.Close? {
        assert Close(last.drain) in run;
      }
      if drain :| Close(drain) in front {
        assert Close(drain) in run;
      }
      if (exists drain :: Close(drain) in run) && !last.Close? {
        var drain :| Close(drain) in run;
        assert Close(drain) in front;
      }
    }
  }

  lemma StepFlags(c: Codec, l: Limits, w: World, a: Label)
    ensures var s' := Step(c, l, w, a).s;
      && (s'.failed <==> w.s.failed || a == ThreadMoves(Break))
      && (s'.closing || s'.closed <==> w.s.closing || w.s.closed || a.Close?)
  {
    hide Criticals, TotalBytes, LineOf, CanWrite;
  }

  // --- What is taken -----------------------------------------------------------------

  /** The encoding a record would get as the next one. */
  function NextSize(c: Codec, w: World, r: SensorRecord): nat {
    |c.encode(LogEntry(|w.records| + 1, r))|
  }

  /** Room beside the records accepted and not yet written. */
  predicate Room(l: Limits, w: World, size: nat) {
    |Backlog(w.s)| < l.queueRecords && TotalBytes(Backlog(w.s)) + size <= l.queueBytes
  }

  /** The writer neither failed nor began to close. */
  predicate Open(run: seq<Label>) {
    ThreadMoves(Break) !in run && Close(true) !in run && Close(false) !in run
  }

  /** No record of another mission was accepted before. */
  predicate SameMission(w: World, r: SensorRecord) {
    forall i | 0 <= i < |w.records| :: w.records[i].missionId == r.missionId
  }

  /**
   A record is accepted if and only if the writer is open, its encoding is within
   the limit, there is room for it, and no record of another mission was accepted
   before.  Each refusal names the first of these that does not hold; only a
   sample refused for lack of room is counted, and no refusal changes more.
   */
  lemma AcceptedIff(c: Codec, l: Limits, run: seq<Label>, r: SensorRecord, critical: bool)
    ensures var w := Reached(c, l, run);
      var (s', o) := Offer(c, l, w.s, r, critical);
      var size := NextSize(c, w, r);
      && (o.Done? <==> Open(run) && size <= l.recordBytes && Room(l, w, size) && SameMission(w, r))
      && (o.Unavailable? <==> !Open(run))
      && (o.TooLarge? <==> Open(run) && size > l.recordBytes)
      && (o.Dropped? <==> Open(run) && size <= l.recordBytes && !Room(l, w, size) && !critical)
      && (o.NotYet? <==> Open(run) && size <= l.recordBytes && !Room(l, w, size) && critical)
      && (o.MissionMixed? <==> Open(run) && size <= l.recordBytes && Room(l, w, size) && !SameMission(w, r))
      && (o.Done? ==> o.logSeq == |w.records| + 1 && s'.mission == Some(r.missionId))
      && (!o.Done? ==> s' == w.s.(dropped := w.s.dropped + if o.Dropped? then 1 else 0))
  {
    ReachedInv(c, l, run);
    AllOneMission(c, l, run);
    UnavailableIff(c, l, run);
    OpenIff(run);
    var w := Reached(c, l, run);
    assert w.s.nextSeq == |w.records| + 1 && w.s.outstanding == |Backlog(w.s)| && w.s.queuedBytes == TotalBytes(Backlog(w.s));
    hide Reached, Inv, TotalBytes, Backlog, Open;
    assert SameMission(w, r) <==> w.s.mission == None || w.s.mission == Some(r.missionId);
  }

  lemma OpenIff(run: seq<Label>)
    ensures Open(run) <==> !(ThreadMoves(Break) in run) && !(exists drain :: Close(drain) in run)
  {
    if drain :| Close(drain) in run {
      assert drain == true || drain == false;
    }
    if Close(true) in run || Close(false) in run {
      assert exists drain :: Close(drain) in run;
    }
  }

  // --- What is dropped ----------------------------------------------------------------

  /** Samples refused for lack of room, and records discarded by a close that does not drain. */
  ghost function DroppedBy(c: Codec, l: Limits, run: seq<Label>): nat {
    if run == [] then 0
    else
      var front, last := run[..|run| - 1], run[|run| - 1];
      var w := Reached(c, l, front);
      DroppedBy(c, l, front) +
      match last
      case Submit(r, critical) =>
        if Open(front) && !critical && NextSize(c, w, r) <= l.recordBytes && !Room(l, w, NextSize(c, w, r)) then 1 else 0
      case Close(drain) => if !drain && !w.s.closed then |w.s.queue| else 0
      case _ => 0
  }

  lemma {:induction false} DroppedCounts(c: Codec, l: Limits, run: seq<Label>)
    ensures Reached(c, l, run).s.dropped == DroppedBy(c, l, run)
  {
    if run != [] {
      var front, last := run[..|run| - 1], run[|run| - 1];
      DroppedCounts(c, l, front);
      var w := Reached(c, l, front);
      assert Reached(c, l, run) == Step(c, l, w, last);
      if last.Submit? {
        AcceptedIff(c, l, front, last.rec, last.critical);
      }
      hide Reached, Room, NextSize, Open, SameMission;
      StepDrops(c, l, w, last);
    }
  }

  lemma StepDrops(c: Codec, l: Limits, w: World, a: Label)
    ensures Step(c, l, w, a).s.dropped == w.s.dropped +
      match a
      case Submit(r, critical) => if Offer(c, l, w.s, r, critical).1.Dropped? then 1 else 0
      case Close(drain) => if !drain && !w.s.closed then |w.s.queue| else 0
      case _ => 0
  {
    hide Criticals, TotalBytes, LineOf, CanWrite;
  }

  // --- Critical writes -----------------------------------------------------------------

  /** The numbers given to critical records. */
  ghost function CriticalNumbers(c: Codec, l: Limits, run: seq<Label>): set<nat> {
    if run == [] then {}
    else
      var front, last := run[..|run| - 1], run[|run| - 1];
      CriticalNumbers(c, l, front) +
      if last.Submit? && last.critical && Offer(c, l, Reached(c, l, front).s, last.rec, true).1.Done? then
        {Reached(c, l, front).s.nextSeq} else {}
  }

  /** Every accepted critical write is waiting, confirmed or broken: its caller always gets an answer, and never without one. */
  lemma {:induction false} CriticalsAnswered(c: Codec, l: Limits, run: seq<Label>)
    ensures var s := Reached(c, l, run).s; CriticalNumbers(c, l, run) == s.confirmed + s.broken + Criticals(Backlog(s))
  {
    if run != [] {
      var front, last := run[..|run| - 1], run[|run| - 1];
      CriticalsAnswered(c, l, front);
      hide Reached, CriticalNumbers;
      StepCriticals(c, l, Reached(c, l, front), last);
    }
  }

  /** Critical writes answered or waiting, the waiting ones taken apart. */
  function Answered(s: State): set<nat> {
    s.confirmed + s.broken
      + (if s.thread.Writing? && s.thread.pending.critical then {s.thread.pending.logSeq} else {}) + Criticals(s.queue)
  }

  lemma AnsweredIs(s: State)
    ensures s.confirmed + s.broken + Criticals(Backlog(s)) == Answered(s)
  {
    var flying := if s.thread.Writing? then [s.thread.pending] else [];
    CriticalsJoin(flying, s.queue);
    assert Criticals(flying) == if s.thread.Writing? && s.thread.pending.critical then {s.thread.pending.logSeq} else {};
    hide Criticals;
  }

  lemma StepCriticals(c: Codec, l: Limits, w: World, a: Label)
    ensures var s, s' := w.s, Step(c, l, w, a).s;
      s'.confirmed + s'.broken + Criticals(Backlog(s')) ==
      s.confirmed + s.broken + Criticals(Backlog(s)) +
        if a.Submit? && a.critical && Offer(c, l, s, a.rec, true).1.Done? then {s.nextSeq} else {}
  {
    hide Criticals, Backlog, Moved, Offer, BeginClose, Answered;
    AnsweredIs(w.s);
    AnsweredIs(Step(c, l, w, a).s);
    match a
    case Submit(r, critical) => OfferAnswers(c, l, w.s, r, critical);
    case ThreadMoves(m) => MoveAnswers(w.s, m);
    case Close(drain) => CloseAnswers(w.s, drain);
    case CloseReturns => ClosedAnswers(w.s);
    case CriticalReturns(_) =>
  }

  lemma OfferAnswers(c: Codec, l: Limits, s: State, r: SensorRecord, critical: bool)
    ensures Answered(Offer(c, l, s, r, critical).0) ==
      Answered(s) + if critical && Offer(c, l, s, r, critical).1.Done? then {s.nextSeq} else {}
  {
    var p := Pending(s.nextSeq, c.encode(LogEntry(s.nextSeq, r)), critical);
    CriticalsJoin(s.queue, [p]);
    assert Criticals([p]) == if critical then {s.nextSeq} else {};
    hide Criticals;
  }

  lemma CloseAnswers(s: State, drain: bool)
    ensures Answered(BeginClose(s, drain)) == Answered(s)
  {
    assert Criticals([]) == {};
    hide Criticals, TotalBytes;
  }

  lemma ClosedAnswers(s: State)
    ensures Answered(s.(closed := true)) == Answered(s)
  {
    hide Criticals;
  }

  lemma MoveAnswers(s: State, m: Move)
    ensures Answered(Moved(s, m)) == Answered(s)
  {
    hide Criticals, TotalBytes, LineOf;
    FirstCritical(s.queue);
  }

  lemma FirstCritical(queue: seq<Pending>)
    ensures Criticals([]) == {}
    ensures queue != [] ==>
      Criticals(queue) == (if queue[0].critical then {queue[0].logSeq} else {}) + Criticals(queue[1..])
  {
    assert Criticals([]) == {};
    if queue != [] {
      assert queue == [queue[0]] + queue[1..];
      CriticalsJoin([queue[0]], queue[1..]);
    }
  }

  lemma CriticalsJoin(a: seq<Pending>, b: seq<Pending>)
    ensures Criticals(a + b) == Criticals(a) + Criticals(b)
  {
  }

  /** What a critical write that waits for its answer is told. */
  lemma ConfirmIff(s: State, logSeq: nat)
    ensures Confirm(s, logSeq).NotYet? <==> logSeq !in s.confirmed && logSeq !in s.broken
    ensures Confirm(s, logSeq).Done? <==> logSeq in s.confirmed && logSeq !in s.broken && !s.failed
    ensures Confirm(s, logSeq).Done? ==> Confirm(s, logSeq).logSeq == logSeq
    ensures Confirm(s, logSeq).NotYet? || Confirm(s, logSeq).Done? || Confirm(s, logSeq).Failed?
  {
  }

  // --- Reading any bytes -----------------------------------------------------------------

  /** A carriage return at the end of a line is not part of it. */
  function Stripped(line: Bytes): Bytes {
    if line != [] && line[|line| - 1] == 13 then line[..|line| - 1] else line
  }

  /**
   Whatever the bytes, the reader yields the first line and goes on behind it if
   the line is within the limit, newline included, decodes, and carries the
   expected number; otherwise it ends there with that error.
   */
  lemma ReadLine(c: Codec, line: Bytes, rest: Bytes, expected: nat, maxLine: nat, recover: bool)
    requires NEWLINE !in line
    ensures var d := c.decode(Stripped(line));
      Read(c, line + [NEWLINE] + rest, expected, maxLine, recover) ==
        if |line| + 1 > maxLine then ReadResult([], Some(LineTooLong))
        else if d.None? then ReadResult([], Some(InvalidRecord))
        else if d.value.logSeq != expected then ReadResult([], Some(SequenceGap))
        else
          var more := Read(c, rest, expected + 1, maxLine, recover);
          ReadResult([d.value] + more.entries, more.error)
  {
    var whole := line + [NEWLINE];
    assert whole[..|whole| - 1] == line;
    LineLengthOf(whole, rest, maxLine + 2);
    hide LineLength;
    if |whole| <= maxLine {
      assert (whole + rest)[..|whole| - 1] == line && (whole + rest)[|whole|..] == rest;
    }
  }

  /** What is left behind the last newline is nothing, too long, or a line cut short, which the reader may pass over. */
  lemma ReadRest(c: Codec, raw: Bytes, expected: nat, maxLine: nat, recover: bool)
    requires NEWLINE !in raw
    ensures Read(c, raw, expected, maxLine, recover) == ReadResult([],
      if raw == [] then None else if |raw| > maxLine then Some(LineTooLong) else if recover then None else Some(Incomplete))
  {
    if raw != [] {
      assert forall b | b in raw[..|raw| - 1] :: b in raw;
      LineLengthOf(raw, [], maxLine + 2);
      assert raw + [] == raw;
      assert raw[|raw| - 1] in raw;
    }
    hide LineLength;
  }
}
