/** What survives a crash of the mission recorder, and what its counters mean, over every run. */
module MissionLogRuns {
  import opened Wrappers
  import opened MissionLog

  // --- Runs -----------------------------------------------------------------------

  datatype Label =
    | Submit(rec: SensorRecord, critical: bool)
    | CriticalReturns(logSeq: nat)
    | Close(drain: bool)
    | CloseReturns
    | ThreadMoves(move: Move)

  /** The writer, every record it accepted so far, and the critical writes that returned. */
  datatype World = World(s: State, records: seq<SensorRecord>, returned: set<nat>, discarded: bool)

  const START := World(OPENED, [], {}, false)

  function Step(c: Codec, l: Limits, w: World, a: Label): World {
    match a
    case Submit(r, critical) =>
      var (s, o) := Offer(c, l, w.s, r, critical);
      w.(s := s, records := if o.Done? then w.records + [r] else w.records)
    case CriticalReturns(q) => if Confirm(w.s, q).Done? then w.(returned := w.returned + {q}) else w
    case Close(drain) => w.(s := BeginClose(w.s, drain), discarded := w.discarded || !drain)
    case CloseReturns => if w.s.closing && w.s.thread.Stopped? then w.(s := w.s.(closed := true)) else w
    case ThreadMoves(m) => w.(s := Moved(w.s, m))
  }

  function Reached(c: Codec, l: Limits, run: seq<Label>): World {
    if run == [] then START else Step(c, l, Reached(c, l, run[..|run| - 1]), run[|run| - 1])
  }

  // --- The log as text --------------------------------------------------------------

  function Line(c: Codec, logSeq: nat, r: SensorRecord): Bytes {
    c.encode(LogEntry(logSeq, r)) + [NEWLINE]
  }

  function Log(c: Codec, from: nat, rs: seq<SensorRecord>): Bytes
    decreases |rs|
  {
    if rs == [] then [] else Line(c, from, rs[0]) + Log(c, from + 1, rs[1..])
  }

  lemma {:induction false} LogAppend(c: Codec, from: nat, rs: seq<SensorRecord>, more: seq<SensorRecord>)
    ensures Log(c, from, rs + more) == Log(c, from, rs) + Log(c, from + |rs|, more)
    decreases |rs|
  {
    if rs == [] {
      assert rs + more == more;
    } else {
      hide Line;
      LogAppend(c, from + 1, rs[1..], more);
      assert (rs + more)[1..] == rs[1..] + more;
      assert Log(c, from, rs + more) == Line(c, from, rs[0]) + Log(c, from + 1, rs[1..] + more);
    }
  }

  lemma LogPrefix(c: Codec, rs: seq<SensorRecord>, k: nat)
    requires k <= |rs|
    ensures Log(c, 1, rs[..k]) <= Log(c, 1, rs)
    ensures k < |rs| ==> Log(c, 1, rs[..k + 1]) == Log(c, 1, rs[..k]) + Line(c, k + 1, rs[k])
  {
    assert rs == rs[..k] + rs[k..];
    LogAppend(c, 1, rs[..k], rs[k..]);
    if k < |rs| {
      assert rs[..k + 1] == rs[..k] + [rs[k]];
      LogAppend(c, 1, rs[..k], [rs[k]]);
      assert Log(c, k + 1, [rs[k]]) == Line(c, k + 1, rs[k]);
    }
  }

  // --- Invariant ----------------------------------------------------------------------

  /** Records accepted but not yet written: the one in flight, then the queue. */
  function Backlog(s: State): seq<Pending> {
    (if s.thread.Writing? then [s.thread.pending] else []) + s.queue
  }

  /** The backlog is the next stretch of accepted records, in order. */
  ghost predicate BacklogOk(c: Codec, w: World) {
    && w.s.written + |Backlog(w.s)| <= |w.records|
    && forall i | 0 <= i < |Backlog(w.s)| ::
         var k := w.s.written + i;
         Backlog(w.s)[i].logSeq == k + 1 && Backlog(w.s)[i].data == c.encode(LogEntry(k + 1, w.records[k]))
  }

  ghost predicate CountersOk(l: Limits, w: World) {
    && w.s.outstanding == |Backlog(w.s)| && w.s.queuedBytes == TotalBytes(Backlog(w.s))
    && |Backlog(w.s)| <= l.queueRecords && TotalBytes(Backlog(w.s)) <= l.queueBytes
    && w.s.accepted == |w.records| && w.s.nextSeq == |w.records| + 1
    && (!w.s.failed && !w.discarded ==> w.s.written + |Backlog(w.s)| == |w.records|)
    && (w.discarded ==> w.s.closing || w.s.closed)
    && (w.s.closed ==> w.s.closing && w.s.thread.Stopped?)
    && (w.s.failed || (w.s.thread.Stopped? && w.s.closing) || !w.s.thread.Stopped?)
    && (w.s.thread.Stopped? ==> w.s.queue == [])
  }

  ghost predicate FileOk(c: Codec, w: World)
    requires w.s.written <= |w.records|
  {
    var whole := Log(c, 1, w.records[..w.s.written]);
    match w.s.thread
    case Waiting => w.s.file == whole
    case Writing(p, offset) => offset <= |LineOf(p)| && w.s.file == whole + LineOf(p)[..offset]
    case Stopped => w.s.file <= Log(c, 1, w.records) && (!w.s.failed ==> w.s.file == whole && w.s.synced == |w.s.file|)
  }

  ghost predicate DurableOk(c: Codec, w: World) {
    && w.s.synced <= |w.s.file|
    && forall q | q in w.s.confirmed + w.returned :: 1 <= q <= |w.records| && |Log(c, 1, w.records[..q])| <= w.s.synced
  }

  ghost predicate Inv(c: Codec, l: Limits, w: World) {
    BacklogOk(c, w) && CountersOk(l, w) && FileOk(c, w) && DurableOk(c, w)
  }

  lemma TotalAppend(a: seq<Pending>, b: seq<Pending>)
    ensures TotalBytes(a + b) == TotalBytes(a) + TotalBytes(b)
  {
    if b == [] {
      assert a + b == a;
    } else {
      assert (a + b)[..|a + b| - 1] == a + b[..|b| - 1];
      TotalAppend(a, b[..|b| - 1]);
    }
  }

  lemma OfferKeepsInv(c: Codec, l: Limits, w: World, r: SensorRecord, critical: bool)
    requires Inv(c, l, w)
    ensures Inv(c, l, Step(c, l, w, Submit(r, critical)))
  {
    hide Log, TotalBytes;
    var w' := Step(c, l, w, Submit(r, critical));
    if Offer(c, l, w.s, r, critical).1.Done? {
      var p := Pending(w.s.nextSeq, c.encode(LogEntry(w.s.nextSeq, r)), critical);
      assert Backlog(w'.s) == Backlog(w.s) + [p];
      TotalAppend(Backlog(w.s), [p]);
      OneBytes(p);
      assert w'.records[..w.s.written] == w.records[..w.s.written];
      assert forall q | 1 <= q <= |w.records| :: w'.records[..q] == w.records[..q];
    }
  }

  lemma OneBytes(p: Pending)
    ensures TotalBytes([p]) == |p.data|
  {
    assert [p][..0] == [];
  }

  lemma CloseKeepsInv(c: Codec, l: Limits, w: World, drain: bool)
    requires Inv(c, l, w)
    ensures Inv(c, l, Step(c, l, w, Close(drain)))
  {
    hide BacklogOk, CountersOk, FileOk, DurableOk, BeginClose;
    assert w.s.written <= |w.records| by { WrittenFits(c, w); }
    CloseKeepsFile(c, w, drain);
    CloseKeepsBacklog(c, l, w, drain);
  }

  lemma CloseKeepsFile(c: Codec, w: World, drain: bool)
    requires w.s.written <= |w.records| && FileOk(c, w) && DurableOk(c, w)
    ensures var w' := w.(s := BeginClose(w.s, drain), discarded := w.discarded || !drain);
      w'.s.written == w.s.written && FileOk(c, w') && DurableOk(c, w')
  {
    hide Log, TotalBytes, Criticals, LineOf;
  }

  lemma CloseKeepsBacklog(c: Codec, l: Limits, w: World, drain: bool)
    requires BacklogOk(c, w) && CountersOk(l, w)
    ensures var w' := w.(s := BeginClose(w.s, drain), discarded := w.discarded || !drain); BacklogOk(c, w') && CountersOk(l, w')
  {
    hide TotalBytes, Criticals;
    var flying := if w.s.thread.Writing? then [w.s.thread.pending] else [];
    TotalAppend(flying, w.s.queue);
    assert flying + [] == flying;
    var s' := BeginClose(w.s, drain);
    assert forall i | 0 <= i < |Backlog(s')| :: Backlog(s')[i] == Backlog(w.s)[i];
  }

  lemma PopKeepsInv(c: Codec, l: Limits, w: World)
    requires Inv(c, l, w)
    ensures Inv(c, l, Step(c, l, w, ThreadMoves(Pop)))
  {
    hide Log, TotalBytes;
    if w.s.thread.Waiting? && w.s.queue != [] {
      assert Backlog(Moved(w.s, Pop)) == Backlog(w.s);
      assert LineOf(w.s.queue[0])[..0] == [];
    } else if w.s.thread.Waiting? && w.s.closing {
      assert Backlog(Moved(w.s, Pop)) == Backlog(w.s);
      LogPrefix(c, w.records, w.s.written);
    }
  }

  lemma WriteKeepsInv(c: Codec, l: Limits, w: World, n: nat)
    requires Inv(c, l, w)
    ensures Inv(c, l, Step(c, l, w, ThreadMoves(Write(n))))
  {
    hide BacklogOk, CountersOk, FileOk, DurableOk;
    assert w.s.written <= |w.records| by { WrittenFits(c, w); }
    if CanWrite(w.s.thread, n) {
      WriteKeepsFile(c, w, n);
      WriteKeepsBacklog(c, l, w, n);
    }
  }

  lemma WrittenFits(c: Codec, w: World)
    requires BacklogOk(c, w)
    ensures w.s.written <= |w.records|
  {
  }

  lemma WriteKeepsFile(c: Codec, w: World, n: nat)
    requires w.s.written <= |w.records| && FileOk(c, w) && DurableOk(c, w) && CanWrite(w.s.thread, n)
    ensures var s := Moved(w.s, Write(n));
      s.written == w.s.written && FileOk(c, w.(s := s)) && DurableOk(c, w.(s := s))
  {
    hide Log, TotalBytes;
    var line, at := LineOf(w.s.thread.pending), w.s.thread.offset;
    assert line[..at] + line[at..at + n] == line[..at + n];
    hide LineOf;
  }

  lemma WriteKeepsBacklog(c: Codec, l: Limits, w: World, n: nat)
    requires BacklogOk(c, w) && CountersOk(l, w) && CanWrite(w.s.thread, n)
    ensures var w' := w.(s := Moved(w.s, Write(n))); BacklogOk(c, w') && CountersOk(l, w')
  {
    hide TotalBytes, LineOf;
    var w' := w.(s := Moved(w.s, Write(n)));
    assert Backlog(w'.s) == Backlog(w.s);
    SameBacklog(c, l, w, w');
  }

  /** What the queue and counters say depends on nothing the file does. */
  lemma SameBacklog(c: Codec, l: Limits, w: World, w': World)
    requires BacklogOk(c, w) && CountersOk(l, w) && Backlog(w'.s) == Backlog(w.s)
    requires w' == w.(s := w.s.(file := w'.s.file, thread := w'.s.thread))
    requires w.s.thread.Writing? && w'.s.thread.Writing?
    ensures BacklogOk(c, w') && CountersOk(l, w')
  {
    hide Backlog, TotalBytes;
  }

  lemma CompleteKeepsInv(c: Codec, l: Limits, w: World)
    requires Inv(c, l, w)
    ensures Inv(c, l, Step(c, l, w, ThreadMoves(Complete)))
  {
    hide Log, TotalBytes;
    if w.s.thread.Writing? && w.s.thread.offset == |LineOf(w.s.thread.pending)| {
      var p, w' := w.s.thread.pending, Step(c, l, w, ThreadMoves(Complete));
      assert Backlog(w.s)[0] == p;
      assert Backlog(w.s) == [p] + Backlog(w'.s);
      TotalAppend([p], Backlog(w'.s));
      OneBytes(p);
      LogPrefix(c, w.records, w.s.written);
      assert LineOf(p)[..w.s.thread.offset] == LineOf(p) == Line(c, w.s.written + 1, w.records[w.s.written]);
      assert forall i | 0 <= i < |Backlog(w'.s)| :: Backlog(w'.s)[i] == Backlog(w.s)[i + 1];
    }
  }

  lemma BreakKeepsInv(c: Codec, l: Limits, w: World)
    requires Inv(c, l, w)
    ensures Inv(c, l, Step(c, l, w, ThreadMoves(Break)))
  {
    hide Log, Criticals;
    if !w.s.thread.Stopped? {
      LogPrefix(c, w.records, w.s.written);
      if w.s.thread.Writing? {
        var p := w.s.thread.pending;
        assert Backlog(w.s)[0] == p;
        LogPrefix(c, w.records, w.s.written + 1);
        assert LineOf(p) == Line(c, w.s.written + 1, w.records[w.s.written]);
        assert w.s.file <= Log(c, 1, w.records[..w.s.written + 1]);
      }
    }
  }

  lemma QuietKeepsInv(c: Codec, l: Limits, w: World, a: Label)
    requires Inv(c, l, w) && (a.CriticalReturns? || a.CloseReturns?)
    ensures Inv(c, l, Step(c, l, w, a))
  {
    hide Log, TotalBytes;
  }

  lemma StepKeepsInv(c: Codec, l: Limits, w: World, a: Label)
    requires Inv(c, l, w)
    ensures Inv(c, l, Step(c, l, w, a))
  {
    hide *;
    match a
    case Submit(r, critical) => OfferKeepsInv(c, l, w, r, critical);
    case Close(drain) => CloseKeepsInv(c, l, w, drain);
    case ThreadMoves(Pop) => PopKeepsInv(c, l, w);
    case ThreadMoves(Write(n)) => WriteKeepsInv(c, l, w, n);
    case ThreadMoves(Complete) => CompleteKeepsInv(c, l, w);
    case ThreadMoves(Break) => BreakKeepsInv(c, l, w);
    case CriticalReturns(_) => QuietKeepsInv(c, l, w, a);
    case CloseReturns => QuietKeepsInv(c, l, w, a);
  }

  lemma {:induction false} ReachedInv(c: Codec, l: Limits, run: seq<Label>)
    ensures Inv(c, l, Reached(c, l, run))
  {
    if run != [] {
      ReachedInv(c, l, run[..|run| - 1]);
      StepKeepsInv(c, l, Reached(c, l, run[..|run| - 1]), run[|run| - 1]);
    }
  }

  // --- Counters -----------------------------------------------------------------------

  /** The counters always describe the queue plus the record in flight, within their bounds. */
  lemma CountersDescribeBacklog(c: Codec, l: Limits, run: seq<Label>)
    ensures var s := Reached(c, l, run).s;
      && s.outstanding == |Backlog(s)| <= l.queueRecords
      && s.queuedBytes == TotalBytes(Backlog(s)) <= l.queueBytes
  {
    ReachedInv(c, l, run);
  }

  /** A writer closed without failing and without discarding has durably written every accepted record. */
  lemma CleanCloseWritesAll(c: Codec, l: Limits, run: seq<Label>)
    requires var w := Reached(c, l, run); w.s.closed && !w.s.failed && !w.discarded
    ensures var w := Reached(c, l, run);
      w.s.written == |w.records| && w.s.file == Log(c, 1, w.records) && w.s.synced == |w.s.file|
  {
    ReachedInv(c, l, run);
    var w := Reached(c, l, run);
    assert w.records[..|w.records|] == w.records;
  }

  // --- Reading what is left -------------------------------------------------------------

  /** Whole lines left in `raw`, a prefix of the log. */
  function Kept(c: Codec, from: nat, rs: seq<SensorRecord>, raw: Bytes): (k: nat)
    ensures k <= |rs|
    decreases |rs|
  {
    if rs == [] || |raw| < |Line(c, from, rs[0])| then 0
    else 1 + Kept(c, from + 1, rs[1..], raw[|Line(c, from, rs[0])|..])
  }

  function Entries(from: nat, rs: seq<SensorRecord>): seq<LogEntry> {
    seq(|rs|, i requires 0 <= i < |rs| => LogEntry(from + i, rs[i]))
  }

  /** No kept line, nor the cut one, is longer than the reader allows, newline included. */
  predicate Readable(c: Codec, from: nat, rs: seq<SensorRecord>, raw: Bytes, maxLine: nat)
    decreases |rs|
  {
    if rs == [] then true
    else if |raw| < |Line(c, from, rs[0])| then |raw| <= maxLine
    else |Line(c, from, rs[0])| <= maxLine && Readable(c, from + 1, rs[1..], raw[|Line(c, from, rs[0])|..], maxLine)
  }

  lemma {:induction false} LineLengthOf(line: Bytes, rest: Bytes, limit: nat)
    requires limit > 0 && line != [] && NEWLINE !in line[..|line| - 1]
    requires line[|line| - 1] == NEWLINE || rest == []
    ensures LineLength(line + rest, limit) == Min(limit, |line|)
  {
    if line[0] != NEWLINE && limit > 1 && |line| > 1 {
      assert (line + rest)[1..] == line[1..] + rest;
      assert line[1..][..|line[1..]| - 1] == line[..|line| - 1][1..];
      LineLengthOf(line[1..], rest, limit - 1);
    } else if |line| == 1 && line[0] != NEWLINE {
      assert line + rest == line;
    }
  }

  lemma WholeLine(c: Codec, from: nat, r: SensorRecord, rest: Bytes, maxLine: nat, recover: bool)
    requires c.Faithful()
    ensures var line := Line(c, from, r);
      ReadRound(c, line + rest, from, maxLine, recover)
      == if |line| <= maxLine then Entry(LogEntry(from, r), |line|) else End(Some(LineTooLong))
  {
    var data, line := c.encode(LogEntry(from, r)), Line(c, from, r);
    assert line[..|line| - 1] == data;
    LineLengthOf(line, rest, maxLine + 2);
    if |line| <= maxLine {
      assert (line + rest)[..|line| - 1] == data;
      assert WithoutReturn(data) == data;
    }
  }

  lemma CutLine(c: Codec, from: nat, r: SensorRecord, raw: Bytes, maxLine: nat, recover: bool)
    requires c.Faithful() && raw <= Line(c, from, r) && |raw| < |Line(c, from, r)|
    ensures ReadRound(c, raw, from, maxLine, recover)
         == if |raw| > maxLine then End(Some(LineTooLong))
            else if raw == [] || recover then End(None) else End(Some(Incomplete))
  {
    var data := c.encode(LogEntry(from, r));
    assert raw <= data;
    if raw != [] {
      assert forall b | b in raw :: b in data;
      LineLengthOf(raw, [], maxLine + 2);
      assert raw + [] == raw;
      assert raw[|raw| - 1] in raw;
    }
  }

  lemma NothingToRead(c: Codec, from: nat, maxLine: nat, recover: bool)
    ensures ReadRound(c, [], from, maxLine, recover) == End(None)
  {
  }

  /**
   Reading any prefix of a log: the entries of the whole lines, unless a line,
   with its newline, exceeds the limit, which ends the iteration with an error.
   */
  lemma {:induction false} ReadPrefix(c: Codec, from: nat, rs: seq<SensorRecord>, raw: Bytes, maxLine: nat, recover: bool)
    requires c.Faithful() && raw <= Log(c, from, rs)
    ensures var r, k := Read(c, raw, from, maxLine, recover), Kept(c, from, rs, raw);
      && (Readable(c, from, rs, raw, maxLine) ==>
            r.entries == Entries(from, rs[..k])
            && r.error == if recover || raw == Log(c, from, rs[..k]) then None else Some(Incomplete))
      && (!Readable(c, from, rs, raw, maxLine) ==> r.error == Some(LineTooLong) && r.entries <= Entries(from, rs[..k]))
    decreases |rs|
  {
    hide ReadRound;
    assert Entries(from, []) == [] && rs[..0] == [];
    if rs == [] {
      assert raw == [];
      assert Read(c, raw, from, maxLine, recover) == ReadResult([], None) by { NothingToRead(c, from, maxLine, recover); }
    } else {
      hide Line, Entries;
      var line := Line(c, from, rs[0]);
      if |raw| < |line| {
        assert raw <= line by { assert forall i | 0 <= i < |raw| :: raw[i] == Log(c, from, rs)[i] == line[i]; }
        CutLine(c, from, rs[0], raw, maxLine, recover);
      } else {
        var rest := raw[|line|..];
        assert raw == line + rest;
        WholeLine(c, from, rs[0], rest, maxLine, recover);
        if |line| <= maxLine {
          RestIsPrefix(line, raw, Log(c, from + 1, rs[1..]));
          ReadPrefix(c, from + 1, rs[1..], rest, maxLine, recover);
          JoinEntries(c, from, rs, raw);
        }
      }
    }
  }

  lemma RestIsPrefix(line: Bytes, raw: Bytes, tail: Bytes)
    requires raw <= line + tail && |line| <= |raw|
    ensures raw[|line|..] <= tail
  {
    assert raw[|line|..] == (line + tail)[|line|..|raw|] == tail[..|raw| - |line|];
  }

  lemma JoinEntries(c: Codec, from: nat, rs: seq<SensorRecord>, raw: Bytes)
    requires rs != [] && |Line(c, from, rs[0])| <= |raw| && raw <= Log(c, from, rs)
    ensures var n, k := |Line(c, from, rs[0])|, Kept(c, from, rs, raw);
      && k > 0 && k - 1 == Kept(c, from + 1, rs[1..], raw[n..])
      && Entries(from, rs[..k]) == [LogEntry(from, rs[0])] + Entries(from + 1, rs[1..][..k - 1])
      && (raw == Log(c, from, rs[..k]) <==> raw[n..] == Log(c, from + 1, rs[1..][..k - 1]))
  {
    hide *;
    var n, k := |Line(c, from, rs[0])|, Kept(c, from, rs, raw);
    KeptFront(c, from, rs, raw);
    LogFront(c, from, rs, k);
    SameFront(Line(c, from, rs[0]), raw[n..], Log(c, from + 1, rs[1..][..k - 1]));
    EntriesFront(from, rs, k);
  }

  lemma KeptFront(c: Codec, from: nat, rs: seq<SensorRecord>, raw: Bytes)
    requires rs != [] && |Line(c, from, rs[0])| <= |raw| && raw <= Log(c, from, rs)
    ensures var n, k := |Line(c, from, rs[0])|, Kept(c, from, rs, raw);
      0 < k <= |rs| && k - 1 == Kept(c, from + 1, rs[1..], raw[n..]) && raw == Line(c, from, rs[0]) + raw[n..]
  {
    hide Line;
    assert Log(c, from, rs) == Line(c, from, rs[0]) + Log(c, from + 1, rs[1..]);
  }

  lemma LogFront(c: Codec, from: nat, rs: seq<SensorRecord>, k: nat)
    requires 0 < k <= |rs|
    ensures Log(c, from, rs[..k]) == Line(c, from, rs[0]) + Log(c, from + 1, rs[1..][..k - 1])
  {
    hide Line;
    assert rs[..k][1..] == rs[1..][..k - 1];
  }

  lemma SameFront(front: Bytes, a: Bytes, b: Bytes)
    ensures front + a == front + b <==> a == b
  {
    assert (front + a)[|front|..] == a && (front + b)[|front|..] == b;
  }

  lemma EntriesFront(from: nat, rs: seq<SensorRecord>, k: nat)
    requires 0 < k <= |rs|
    ensures Entries(from, rs[..k]) == [LogEntry(from, rs[0])] + Entries(from + 1, rs[1..][..k - 1])
  {
  }

  /** `ReadPrefix` as lengths: with records within the reader's limit, only a kept line of exactly that length fails. */
  lemma {:induction false} ReadableIff(c: Codec, from: nat, rs: seq<SensorRecord>, raw: Bytes, maxLine: nat)
    requires forall i | 0 <= i < |rs| :: |c.encode(LogEntry(from + i, rs[i]))| <= maxLine
    ensures Readable(c, from, rs, raw, maxLine)
       <==> forall i | 0 <= i < Kept(c, from, rs, raw) :: |c.encode(LogEntry(from + i, rs[i]))| != maxLine
    decreases |rs|
  {
    NoneAtLimitIff(c, from, rs, raw, maxLine);
  }

  /** None of the first `k` records is exactly as long as the limit. */
  predicate NoneAtLimit(c: Codec, from: nat, rs: seq<SensorRecord>, k: nat, maxLine: nat)
    requires k <= |rs|
  {
    forall i | 0 <= i < k :: |c.encode(LogEntry(from + i, rs[i]))| != maxLine
  }

  predicate WithinLimit(c: Codec, from: nat, rs: seq<SensorRecord>, maxLine: nat) {
    forall i | 0 <= i < |rs| :: |c.encode(LogEntry(from + i, rs[i]))| <= maxLine
  }

  lemma {:induction false} NoneAtLimitIff(c: Codec, from: nat, rs: seq<SensorRecord>, raw: Bytes, maxLine: nat)
    requires WithinLimit(c, from, rs, maxLine)
    ensures Readable(c, from, rs, raw, maxLine) <==> NoneAtLimit(c, from, rs, Kept(c, from, rs, raw), maxLine)
    decreases |rs|
  {
    if rs != [] && |raw| >= |Line(c, from, rs[0])| {
      var rest := raw[|Line(c, from, rs[0])|..];
      var k := Kept(c, from, rs, raw);
      FirstAtLimit(c, from, rs, k, maxLine);
      NoneAtLimitIff(c, from + 1, rs[1..], rest, maxLine);
      hide NoneAtLimit, WithinLimit, Line;
    } else if rs != [] {
      assert |c.encode(LogEntry(from + 0, rs[0]))| <= maxLine;
    }
  }

  lemma FirstAtLimit(c: Codec, from: nat, rs: seq<SensorRecord>, k: nat, maxLine: nat)
    requires 0 < k <= |rs| && WithinLimit(c, from, rs, maxLine)
    ensures WithinLimit(c, from + 1, rs[1..], maxLine)
    ensures NoneAtLimit(c, from, rs, k, maxLine)
       <==> |Line(c, from, rs[0])| <= maxLine && NoneAtLimit(c, from + 1, rs[1..], k - 1, maxLine)
  {
    var rest := rs[1..];
    assert |c.encode(LogEntry(from + 0, rs[0]))| <= maxLine;
    forall i | 0 <= i < |rest| ensures |c.encode(LogEntry(from + 1 + i, rest[i]))| == |c.encode(LogEntry(from + (i + 1), rs[i + 1]))| {
    }
    if NoneAtLimit(c, from, rs, k, maxLine) {
      assert |c.encode(LogEntry(from + 0, rs[0]))| != maxLine;
      forall i | 0 <= i < k - 1 ensures |c.encode(LogEntry(from + 1 + i, rest[i]))| != maxLine {
        assert |c.encode(LogEntry(from + (i + 1), rs[i + 1]))| != maxLine;
      }
    } else {
      var i :| 0 <= i < k && |c.encode(LogEntry(from + i, rs[i]))| == maxLine;
      if i > 0 {
        assert |c.encode(LogEntry(from + 1 + (i - 1), rest[i - 1]))| == maxLine;
      }
    }
    forall i | 0 <= i < |rest| ensures |c.encode(LogEntry(from + 1 + i, rest[i]))| <= maxLine {
      assert |c.encode(LogEntry(from + (i + 1), rs[i + 1]))| <= maxLine;
    }
  }

  lemma {:induction false} KeptAtLeast(c: Codec, from: nat, rs: seq<SensorRecord>, raw: Bytes, q: nat)
    requires raw <= Log(c, from, rs) && q <= |rs| && |Log(c, from, rs[..q])| <= |raw|
    ensures q <= Kept(c, from, rs, raw)
    decreases |rs|
  {
    if q > 0 {
      var line := Line(c, from, rs[0]);
      assert rs[..q][1..] == rs[1..][..q - 1];
      RestIsPrefix(line, raw, Log(c, from + 1, rs[1..]));
      KeptAtLeast(c, from + 1, rs[1..], raw[|line|..], q - 1);
    }
  }

  // --- Crash ------------------------------------------------------------------------------

  lemma FileIsPrefix(c: Codec, l: Limits, run: seq<Label>)
    ensures var w := Reached(c, l, run); w.s.file <= Log(c, 1, w.records)
  {
    hide Reached, Inv, Log;
    ReachedInv(c, l, run);
    InvFileIsPrefix(c, l, Reached(c, l, run));
  }

  lemma InvFileIsPrefix(c: Codec, l: Limits, w: World)
    requires Inv(c, l, w)
    ensures w.s.file <= Log(c, 1, w.records)
  {
    BreakKeepsInv(c, l, w);
    hide Log;
  }

  lemma OfferFits(c: Codec, l: Limits, w: World, r: SensorRecord, critical: bool)
    requires CountersOk(l, w) && Offer(c, l, w.s, r, critical).1.Done?
    ensures |c.encode(LogEntry(1 + |w.records|, r))| <= l.recordBytes
  {
  }

  predicate AllWithin(c: Codec, rs: seq<SensorRecord>, limit: nat) {
    forall i | 0 <= i < |rs| :: |c.encode(LogEntry(1 + i, rs[i]))| <= limit
  }

  lemma {:induction false} RecordsFit(c: Codec, l: Limits, run: seq<Label>)
    ensures AllWithin(c, Reached(c, l, run).records, l.recordBytes)
  {
    if run != [] {
      var front := run[..|run| - 1];
      RecordsFit(c, l, front);
      ReachedInv(c, l, front);
      hide AllWithin, Step;
      StepFits(c, l, Reached(c, l, front), run[|run| - 1]);
    }
  }

  lemma StepFits(c: Codec, l: Limits, w: World, a: Label)
    requires Inv(c, l, w) && AllWithin(c, w.records, l.recordBytes)
    ensures AllWithin(c, Step(c, l, w, a).records, l.recordBytes)
  {
    hide AllWithin, Moved, Log;
    if a.Submit? && Offer(c, l, w.s, a.rec, a.critical).1.Done? {
      OfferFits(c, l, w, a.rec, a.critical);
      WithinAppend(c, w.records, a.rec, l.recordBytes);
    }
  }

  lemma WithinAppend(c: Codec, rs: seq<SensorRecord>, r: SensorRecord, limit: nat)
    requires AllWithin(c, rs, limit) && |c.encode(LogEntry(1 + |rs|, r))| <= limit
    ensures AllWithin(c, rs + [r], limit)
  {
  }

  /**
   Crash safety.  After any run and a crash that leaves any prefix of the file
   holding at least its synced part, the reader yields exactly the first `k`
   accepted records, numbered from 1, `k` being the whole lines left, and every
   critical write that returned is among them.  With a reader limit no smaller
   than the writer's this holds if and only if no kept record is exactly as long
   as the limit: the reader counts the newline and the writer does not.
   */
  lemma LogSurvivesCrash(c: Codec, l: Limits, run: seq<Label>, raw: Bytes, maxLine: nat)
    requires c.Faithful() && l.recordBytes <= maxLine
    requires var s := Reached(c, l, run).s; raw <= s.file && s.synced <= |raw|
    ensures var w := Reached(c, l, run);
      var k, r := Kept(c, 1, w.records, raw), Read(c, raw, 1, maxLine, true);
      && (r == ReadResult(Entries(1, w.records[..k]), None)
          <==> forall i | 0 <= i < k :: |c.encode(LogEntry(1 + i, w.records[i]))| != maxLine)
      && (forall q | q in w.returned :: 1 <= q <= k)
  {
    var w := Reached(c, l, run);
    FileIsPrefix(c, l, run);
    ReturnedDurable(c, l, run);
    RecordsFit(c, l, run);
    hide Reached, Log, Read, Kept, Readable;
    ReadPrefix(c, 1, w.records, raw, maxLine, true);
    ReadableIff(c, 1, w.records, raw, maxLine);
    forall q | q in w.returned ensures 1 <= q <= Kept(c, 1, w.records, raw) {
      KeptAtLeast(c, 1, w.records, raw, q);
    }
  }

  lemma ReturnedDurable(c: Codec, l: Limits, run: seq<Label>)
    ensures var w := Reached(c, l, run);
      forall q | q in w.returned :: 1 <= q <= |w.records| && |Log(c, 1, w.records[..q])| <= w.s.synced
  {
    ReachedInv(c, l, run);
  }

  lemma Then(c: Codec, l: Limits, run: seq<Label>, a: Label)
    ensures Reached(c, l, run + [a]) == Step(c, l, Reached(c, l, run), a)
  {
    hide Step;
    assert (run + [a])[..|run|] == run;
  }

  /** The limits disagree by one: a record the writer accepts can make the whole log unreadable. */
  lemma AcceptedButUnreadable(c: Codec, r: SensorRecord)
    requires c.Faithful()
    ensures var n := |c.encode(LogEntry(1, r))|;
      var run := [Submit(r, false), ThreadMoves(Pop), ThreadMoves(Write(n)), ThreadMoves(Write(1)), ThreadMoves(Complete)];
      var w := Reached(c, Limits(1, n, n), run);
      w.records == [r] && w.s.written == 1 && Read(c, w.s.file, 1, n, true) == ReadResult([], Some(LineTooLong))
  {
    hide *;
    var n := |c.encode(LogEntry(1, r))|;
    var run := [Submit(r, false), ThreadMoves(Pop), ThreadMoves(Write(n))];
    RecordWritten(c, r);
    NewlineWritten(c, Limits(1, n, n), run, r);
    assert run + [ThreadMoves(Write(1))] + [ThreadMoves(Complete)]
        == [Submit(r, false), ThreadMoves(Pop), ThreadMoves(Write(n)), ThreadMoves(Write(1)), ThreadMoves(Complete)];
    LineExceeds(c, r);
    FirstLineTooLong(c, r, n);
  }

  lemma LineExceeds(c: Codec, r: SensorRecord)
    ensures |Line(c, 1, r)| == |c.encode(LogEntry(1, r))| + 1
  {
  }

  /** The record is accepted, taken and written up to its newline. */
  lemma RecordWritten(c: Codec, r: SensorRecord)
    ensures var data := c.encode(LogEntry(1, r));
      var w := Reached(c, Limits(1, |data|, |data|), [Submit(r, false), ThreadMoves(Pop), ThreadMoves(Write(|data|))]);
      && w.records == [r] && w.s.written == 0 && w.s.file == data && w.s.thread == Writing(Pending(1, data, false), |data|)
  {
    hide Reached, Criticals;
    var data := c.encode(LogEntry(1, r));
    var n, l := |data|, Limits(1, |data|, |data|);
    assert LineOf(Pending(1, data, false))[0..n] == data;
    assert TotalBytes([]) == 0;
    NothingReached(c, l);
    Then(c, l, [], Submit(r, false));
    assert [] + [Submit(r, false)] == [Submit(r, false)];
    Then(c, l, [Submit(r, false)], ThreadMoves(Pop));
    assert [Submit(r, false)] + [ThreadMoves(Pop)] == [Submit(r, false), ThreadMoves(Pop)];
    Then(c, l, [Submit(r, false), ThreadMoves(Pop)], ThreadMoves(Write(n)));
    assert [Submit(r, false), ThreadMoves(Pop)] + [ThreadMoves(Write(n))]
        == [Submit(r, false), ThreadMoves(Pop), ThreadMoves(Write(n))];
    hide LineOf, TotalBytes;
  }

  /** The newline follows and the line counts as written. */
  lemma NewlineWritten(c: Codec, l: Limits, run: seq<Label>, r: SensorRecord)
    requires var data, w := c.encode(LogEntry(1, r)), Reached(c, l, run);
      w.records == [r] && w.s.written == 0 && w.s.file == data && w.s.thread == Writing(Pending(1, data, false), |data|)
    ensures var w := Reached(c, l, run + [ThreadMoves(Write(1))] + [ThreadMoves(Complete)]);
      w.records == [r] && w.s.written == 1 && w.s.file == Line(c, 1, r)
  {
    hide Reached, Criticals, TotalBytes;
    var data := c.encode(LogEntry(1, r));
    assert LineOf(Pending(1, data, false))[|data|..|data| + 1] == [NEWLINE];
    Then(c, l, run, ThreadMoves(Write(1)));
    Then(c, l, run + [ThreadMoves(Write(1))], ThreadMoves(Complete));
  }

  lemma NothingReached(c: Codec, l: Limits)
    ensures Reached(c, l, []) == START
  {
  }

  lemma FirstLineTooLong(c: Codec, r: SensorRecord, n: nat)
    requires c.Faithful() && n < |Line(c, 1, r)|
    ensures Read(c, Line(c, 1, r), 1, n, true) == ReadResult([], Some(LineTooLong))
  {
    assert Line(c, 1, r) + [] == Line(c, 1, r);
    WholeLine(c, 1, r, [], n, true);
  }
}
