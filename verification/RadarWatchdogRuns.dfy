/** Polling piecewise agrees with scanning once everything that was read. */
module RadarWatchdogRuns {
  import opened Wrappers
  import opened RadarWatchdog

  // --- Splitting and searching piecewise ------------------------------------------

  lemma LinesOneMore(s: Bytes, x: Byte)
    ensures Lines(s + [x]) == if x == NEWLINE then Lines(s) + [Partial(s)] else Lines(s)
    ensures Partial(s + [x]) == if x == NEWLINE then [] else Partial(s) + [x]
  {
    assert (s + [x])[..|s|] == s;
  }

  lemma {:induction false} LinesJoin(a: Bytes, b: Bytes)
    ensures Lines(a + b) == Lines(a) + Lines(Partial(a) + b)
    ensures Partial(a + b) == Partial(Partial(a) + b)
  {
    hide Lines, Partial;
    if b == [] {
      assert a + b == a && Partial(a) + b == Partial(a);
      PartialHasNoLine(a);
    } else {
      var front, last := b[..|b| - 1], b[|b| - 1];
      LinesJoin(a, front);
      assert a + b == (a + front) + [last] && Partial(a) + b == (Partial(a) + front) + [last];
      LinesOneMore(a + front, last);
      LinesOneMore(Partial(a) + front, last);
    }
  }

  lemma {:induction false} PartialHasNoLine(a: Bytes)
    ensures Lines(Partial(a)) == [] && Partial(Partial(a)) == Partial(a)
  {
    if a != [] && a[|a| - 1] != NEWLINE {
      PartialHasNoLine(a[..|a| - 1]);
      var p := Partial(a[..|a| - 1]) + [a[|a| - 1]];
      assert p[..|p| - 1] == Partial(a[..|a| - 1]);
    }
  }

  /** A pattern found in the extended text was there before or touches the carried-over tail. */
  lemma OverlapSuffices(p: Bytes, seen: Bytes, chunk: Bytes, keep: nat)
    requires p != [] && keep >= |p| - 1
    ensures Occurs(p, seen + chunk) <==> Occurs(p, seen) || Occurs(p, Tail(seen, keep) + chunk)
  {
    var all, kept := seen + chunk, Tail(seen, keep) + chunk;
    var cut := |seen| - |Tail(seen, keep)|;
    assert all[cut..] == kept;
    forall i | OccursAt(p, all, i) ensures OccursAt(p, seen, i) || OccursAt(p, kept, i - cut) {
      if i + |p| <= |seen| {
        OccursInPrefix(p, seen, chunk, i);
      } else {
        OccursInSuffix(p, all, cut, i - cut);
      }
    }
    forall i | OccursAt(p, seen, i) ensures OccursAt(p, all, i) {
      OccursInPrefix(p, seen, chunk, i);
    }
    forall i | OccursAt(p, kept, i) ensures OccursAt(p, all, i + cut) {
      OccursInSuffix(p, all, cut, i);
    }
    hide OccursAt;
    SearchForms(p, seen, chunk, kept, cut);
  }

  lemma OccursInPrefix(p: Bytes, a: Bytes, b: Bytes, i: int)
    requires i + |p| <= |a|
    ensures OccursAt(p, a + b, i) <==> OccursAt(p, a, i)
  {
    if 0 <= i {
      assert (a + b)[i..i + |p|] == a[i..i + |p|];
    }
  }

  lemma OccursInSuffix(p: Bytes, s: Bytes, cut: nat, i: int)
    requires cut <= |s| && 0 <= i
    ensures OccursAt(p, s, i + cut) <==> OccursAt(p, s[cut..], i)
  {
    if i + cut + |p| <= |s| {
      assert s[i + cut..i + cut + |p|] == s[cut..][i..i + |p|];
    }
  }

  lemma SearchForms(p: Bytes, seen: Bytes, chunk: Bytes, kept: Bytes, cut: nat)
    requires p != []
    requires forall i :: OccursAt(p, seen + chunk, i) ==> OccursAt(p, seen, i) || OccursAt(p, kept, i - cut)
    requires forall i :: OccursAt(p, seen, i) ==> OccursAt(p, seen + chunk, i)
    requires forall i :: OccursAt(p, kept, i) ==> OccursAt(p, seen + chunk, i + cut)
    ensures Occurs(p, seen + chunk) <==> Occurs(p, seen) || Occurs(p, kept)
  {
    hide OccursAt;
    OccursSomewhere(p, seen + chunk);
    OccursSomewhere(p, seen);
    OccursSomewhere(p, kept);
    if Occurs(p, kept) {
      var i :| OccursAt(p, kept, i);
      assert OccursAt(p, seen + chunk, i + cut);
    }
  }

  lemma OccursSomewhere(p: Bytes, s: Bytes)
    ensures Occurs(p, s) <==> exists i :: OccursAt(p, s, i)
  {
  }

  lemma TailJoin(a: Bytes, b: Bytes, n: nat)
    ensures Tail(Tail(a, n) + b, n) == Tail(a + b, n)
  {
  }

  // --- Runs over append-only files --------------------------------------------------

  /** Everything read so far, and every frame observed with the time of its poll. */
  datatype Sighting = Sighting(frame: Frame, now: real)
  datatype World = World(s: State, rawRead: Bytes, missionRead: Bytes, frames: seq<Sighting>)

  const BEGIN := World(START, [], [], [])

  /** The bytes a poll consumes from a file. */
  function Consumed(t: Tailing, t': Tailing, file: Option<File>): Bytes {
    if file.Some? && t.offset <= t'.offset <= |file.value.bytes| then file.value.bytes[t.offset..t'.offset] else []
  }

  function FramesOf(g: Settings, lines: seq<Bytes>): seq<Frame> {
    if lines == [] then []
    else
      var before, e := FramesOf(g, lines[..|lines| - 1]), g.decode(lines[|lines| - 1]);
      if e.Some? && e.value.FrameEntry? then before + [e.value.frame] else before
  }

  /** The frames among the lines one poll takes before it finds a bad one. */
  function Taken(g: Settings, s: State, lines: seq<Bytes>, now: real): seq<Sighting> {
    if lines == [] then []
    else
      var before := Taken(g, s, lines[..|lines| - 1], now);
      var line := lines[|lines| - 1];
      if TakeLines(g, s, lines[..|lines| - 1], now).fault.Some? || !LineOk(g, line) || g.decode(line).value.OtherEntry? then before
      else before + [Sighting(g.decode(line).value.frame, now)]
  }

  function NewFrames(g: Settings, s: State, p: Poll): seq<Sighting> {
    if s.fault.Some? || p.mission.None? || !Continues(s.mission, p.mission.value) then []
    else
      var buffered := s.partial + Chunk(s.mission, p.mission.value, g.maxLineBytes + 1);
      if |Partial(buffered)| > g.maxLineBytes then [] else Taken(g, s, Lines(buffered), p.now)
  }

  function Step(g: Settings, w: World, p: Poll): World {
    var s := Polled(g, w.s, p);
    var s1 := if w.s.fault.None? then PollRaw(g, w.s, p.raw) else w.s;
    World(s, w.rawRead + Consumed(w.s.raw, s.raw, p.raw), w.missionRead + Consumed(w.s.mission, s.mission, p.mission),
          w.frames + NewFrames(g, s1, p))
  }

  function Reached(g: Settings, polls: seq<Poll>): World {
    if polls == [] then BEGIN else Step(g, Reached(g, polls[..|polls| - 1]), polls[|polls| - 1])
  }

  predicate Grows(a: Option<File>, b: Option<File>) {
    a.Some? ==> b.Some? && a.value.identity == b.value.identity && a.value.bytes <= b.value.bytes
  }

  predicate AppendOnly(polls: seq<Poll>) {
    forall i, j | 0 <= i < j < |polls| :: Grows(polls[i].raw, polls[j].raw) && Grows(polls[i].mission, polls[j].mission)
  }

  // --- One-shot specification -----------------------------------------------------------

  /** Length of the longest suffix of frames that all qualify. */
  function GoodRun(g: Settings, frames: seq<Sighting>): (n: nat)
    ensures n <= |frames|
    ensures forall i | |frames| - n <= i < |frames| :: Qualifies(g, frames[i].frame)
    ensures n < |frames| ==> !Qualifies(g, frames[|frames| - n - 1].frame)
  {
    if frames == [] || !Qualifies(g, frames[|frames| - 1].frame) then 0 else 1 + GoodRun(g, frames[..|frames| - 1])
  }

  /** The frame at `i` completes a long enough run in time. */
  predicate VerifiesAt(g: Settings, frames: seq<Sighting>, i: int) {
    && 0 <= i < |frames| && Qualifies(g, frames[i].frame)
    && GoodRun(g, frames[..i + 1]) >= g.requiredFrames
    && frames[i].now < g.startedAt + g.verificationTimeout
  }

  predicate ProgressOf(g: Settings, p: Progress, frames: seq<Sighting>) {
    && p.goodFrames == GoodRun(g, frames)
    && (p.verified <==> exists i | 0 <= i < |frames| :: VerifiesAt(g, frames, i))
    && p.lastSeen == (if frames == [] then None else Some(frames[|frames| - 1].now))
    && p.latestNumber == (if frames == [] then None else Some(frames[|frames| - 1].frame.number))
  }

  function Plain(frames: seq<Sighting>): seq<Frame> {
    seq(|frames|, i requires 0 <= i < |frames| => frames[i].frame)
  }

  predicate AllOk(g: Settings, lines: seq<Bytes>) {
    forall line | line in lines :: LineOk(g, line)
  }

  /** Every whole line is short enough and decodes, and so far the cut one is short enough. */
  predicate Clean(g: Settings, text: Bytes) {
    AllOk(g, Lines(text)) && |Partial(text)| <= g.maxLineBytes
  }

  // --- Invariant --------------------------------------------------------------------------

  ghost predicate TailingOk(t: Tailing, read: Bytes, file: Option<File>) {
    && t.offset == |read| && |t.tail| <= |read| && t.tail == read[|read| - |t.tail|..]
    && (if t.identity.Some? then file.Some? && file.value.identity == t.identity.value && read <= file.value.bytes
        else read == [])
  }

  ghost predicate RawOk(g: Settings, w: World, file: Option<File>) {
    && TailingOk(w.s.raw, w.rawRead, file)
    && w.s.fault != Some(RawInvalid)
    && (w.s.fault == Some(FirmwareAssert) <==> Occurs(g.pattern, w.rawRead))
    && (w.s.fault != Some(FirmwareAssert) ==>
          w.s.overlap == if |g.pattern| <= 1 then w.rawRead else Tail(w.rawRead, |g.pattern| - 1))
  }

  ghost predicate MissionOk(g: Settings, w: World, file: Option<File>) {
    && TailingOk(w.s.mission, w.missionRead, file)
    && (w.s.fault == Some(MissionInvalid) <==> !Clean(g, w.missionRead))
    && (w.s.fault != Some(MissionInvalid) ==>
          && w.s.partial == Partial(w.missionRead)
          && w.s.lineNumber == |Lines(w.missionRead)|
          && Plain(w.frames) == FramesOf(g, Lines(w.missionRead)))
  }

  lemma GrownTailing(t: Tailing, read: Bytes, a: Option<File>, b: Option<File>)
    requires TailingOk(t, read, a) && Grows(a, b)
    ensures TailingOk(t, read, b)
  {
  }

  /** Over an append-only file the tail always matches, and reading advances by the chunk. */
  lemma ReadOn(g: Settings, t: Tailing, read: Bytes, f: File, limit: nat)
    requires TailingOk(t, read, Some(f))
    ensures Continues(t, f)
    ensures var chunk := Chunk(t, f, limit);
      TailingOk(Advanced(g, t, f, chunk), read + chunk, Some(f))
      && Consumed(t, Advanced(g, t, f, chunk), Some(f)) == chunk
  {
    assert f.bytes[..|read|] == read;
    assert t.tail == read[|read| - |t.tail|..] == f.bytes[|read| - |t.tail|..|read|];
    AdvancedTail(g, t, read, f, Chunk(t, f, limit));
  }

  lemma AdvancedTail(g: Settings, t: Tailing, read: Bytes, f: File, chunk: Bytes)
    requires t.offset == |read| && |t.tail| <= |read| && t.tail == read[|read| - |t.tail|..]
    ensures var tail := Advanced(g, t, f, chunk).tail;
      |tail| <= |read + chunk| && tail == (read + chunk)[|read + chunk| - |tail|..]
  {
    var all, joined := read + chunk, t.tail + chunk;
    assert joined == all[|all| - |joined|..] by {
      assert read == read[..|read| - |t.tail|] + t.tail;
    }
    var kept := Tail(joined, g.continuityBytes);
    SuffixOfSuffix(all, joined, |kept|);
  }

  lemma SuffixOfSuffix(all: Bytes, end: Bytes, n: nat)
    requires |end| <= |all| && end == all[|all| - |end|..] && n <= |end|
    ensures end[|end| - n..] == all[|all| - n..]
  {
  }

  lemma {:induction false} TakenLines(g: Settings, s: State, lines: seq<Bytes>, now: real)
    requires s.fault.None?
    ensures var r := TakeLines(g, s, lines, now);
      && r == s.(lineNumber := r.lineNumber, progress := r.progress, fault := r.fault)
      && (r.fault.None? || r.fault == Some(MissionInvalid))
      && (r.fault.None? <==> AllOk(g, lines))
      && (r.fault.None? ==> r.lineNumber == s.lineNumber + |lines| && Plain(Taken(g, s, lines, now)) == FramesOf(g, lines))
  {
    if lines != [] {
      var before, last := lines[..|lines| - 1], lines[|lines| - 1];
      hide Observe;
      TakenLines(g, s, before, now);
      assert lines == before + [last];
      assert AllOk(g, lines) <==> AllOk(g, before) && LineOk(g, last) by {
        assert forall line :: line in lines <==> line in before || line == last;
      }
    }
  }

  lemma ObservedProgress(g: Settings, p: Progress, frames: seq<Sighting>, f: Frame, now: real)
    requires ProgressOf(g, p, frames)
    ensures ProgressOf(g, Observe(g, p, f, now), frames + [Sighting(f, now)])
  {
    var more := frames + [Sighting(f, now)];
    assert more[..|frames|] == frames && more[..|frames| + 1] == more;
    assert GoodRun(g, more) == if Qualifies(g, f) then GoodRun(g, frames) + 1 else 0;
    hide GoodRun, Qualifies;
    VerifiedAppend(g, frames, Sighting(f, now));
  }

  lemma VerifiedAppend(g: Settings, frames: seq<Sighting>, s: Sighting)
    ensures var more := frames + [s];
      (exists i | 0 <= i < |more| :: VerifiesAt(g, more, i)) <==>
      (exists i | 0 <= i < |frames| :: VerifiesAt(g, frames, i)) || VerifiesAt(g, more, |frames|)
    ensures VerifiesAt(g, frames + [s], |frames|) <==>
      && Qualifies(g, s.frame) && GoodRun(g, frames + [s]) >= g.requiredFrames
      && s.now < g.startedAt + g.verificationTimeout
  {
    hide GoodRun, Qualifies;
    var more := frames + [s];
    assert more[..|frames| + 1] == more;
    forall i | 0 <= i < |frames| ensures VerifiesAt(g, more, i) <==> VerifiesAt(g, frames, i) {
      assert more[i] == frames[i] && more[..i + 1] == frames[..i + 1];
    }
    if i :| 0 <= i < |frames| && VerifiesAt(g, frames, i) {
      assert VerifiesAt(g, more, i);
    }
  }

  lemma {:induction false} TakenProgress(g: Settings, s: State, lines: seq<Bytes>, now: real, frames: seq<Sighting>)
    requires s.fault.None? && ProgressOf(g, s.progress, frames)
    ensures ProgressOf(g, TakeLines(g, s, lines, now).progress, frames + Taken(g, s, lines, now))
  {
    if lines == [] {
      assert frames + [] == frames;
    } else {
      hide Observe, ProgressOf, Qualifies;
      var front, last := lines[..|lines| - 1], lines[|lines| - 1];
      TakenProgress(g, s, front, now, frames);
      var before := TakeLines(g, s, front, now);
      if before.fault.None? && LineOk(g, last) && g.decode(last).value.FrameEntry? {
        ObservedProgress(g, before.progress, frames + Taken(g, s, front, now), g.decode(last).value.frame, now);
        assert frames + Taken(g, s, lines, now)
            == frames + Taken(g, s, front, now) + [Sighting(g.decode(last).value.frame, now)];
      }
    }
  }

  lemma {:induction false} FramesJoin(g: Settings, a: seq<Bytes>, b: seq<Bytes>)
    ensures FramesOf(g, a + b) == FramesOf(g, a) + FramesOf(g, b)
  {
    if b == [] {
      assert a + b == a;
    } else {
      assert (a + b)[..|a + b| - 1] == a + b[..|b| - 1];
      FramesJoin(g, a, b[..|b| - 1]);
    }
  }

  // --- One poll -----------------------------------------------------------------------------

  lemma RawStep(g: Settings, w: World, file: Option<File>)
    requires g.Ok() && w.s.fault.None? && RawOk(g, w, file)
    ensures var s := PollRaw(g, w.s, file);
      && RawOk(g, w.(s := s, rawRead := w.rawRead + Consumed(w.s.raw, s.raw, file)), file)
      && s == w.s.(raw := s.raw, overlap := s.overlap, fault := s.fault)
      && (s.fault.None? || s.fault == Some(FirmwareAssert))
  {
    hide Occurs, Tail, Advanced;
    if file.Some? {
      var chunk := Chunk(w.s.raw, file.value, g.rawReadBytes);
      ReadOn(g, w.s.raw, w.rawRead, file.value, g.rawReadBytes);
      if |g.pattern| <= 1 {
        OverlapSuffices(g.pattern, w.rawRead, chunk, |w.rawRead|);
        WholeTail(w.rawRead);
      } else {
        OverlapSuffices(g.pattern, w.rawRead, chunk, |g.pattern| - 1);
        TailJoin(w.rawRead, chunk, |g.pattern| - 1);
      }
    } else {
      assert w.rawRead + [] == w.rawRead;
    }
  }

  lemma WholeTail(s: Bytes)
    ensures Tail(s, |s|) == s
  {
  }

  lemma MissionStep(g: Settings, w: World, file: Option<File>, now: real)
    requires w.s.fault.None? && MissionOk(g, w, file) && ProgressOf(g, w.s.progress, w.frames)
    ensures var s := PollMission(g, w.s, file, now);
      var w' := w.(s := s, missionRead := w.missionRead + Consumed(w.s.mission, s.mission, file),
                   frames := w.frames + NewFrames(g, w.s, Poll(None, file, now)));
      && MissionOk(g, w', file) && ProgressOf(g, s.progress, w'.frames)
      && s.raw == w.s.raw && s.overlap == w.s.overlap
      && (s.fault.None? || s.fault == Some(MissionInvalid))
  {
    hide Lines, Partial, Tail, Advanced, ProgressOf, FramesOf, Continues, LineOk, TakeLines, Taken;
    assert w.missionRead + [] == w.missionRead && w.frames + [] == w.frames;
    if file.Some? {
      var f := file.value;
      ReadOn(g, w.s.mission, w.missionRead, f, g.maxLineBytes + 1);
      var chunk := Chunk(w.s.mission, f, g.maxLineBytes + 1);
      var buffered := w.s.partial + chunk;
      LinesJoin(w.missionRead, chunk);
      var s1 := w.s.(mission := Advanced(g, w.s.mission, f, chunk), partial := Partial(buffered));
      if |s1.partial| <= g.maxLineBytes {
        var lines := Lines(buffered);
        TakenLines(g, s1, lines, now);
        TakenProgress(g, s1, lines, now, w.frames);
        SameTaken(g, w.s, s1, lines, now);
        FramesJoin(g, Lines(w.missionRead), lines);
        PlainJoin(w.frames, Taken(g, s1, lines, now));
      }
    }
  }

  lemma PlainJoin(a: seq<Sighting>, b: seq<Sighting>)
    ensures Plain(a + b) == Plain(a) + Plain(b)
  {
  }

  /** Which frames a read yields depends on its lines alone. */
  lemma {:induction false} SameTaken(g: Settings, s: State, s1: State, lines: seq<Bytes>, now: real)
    requires s.fault.None? && s1.fault.None?
    ensures Taken(g, s, lines, now) == Taken(g, s1, lines, now)
    ensures TakeLines(g, s, lines, now).fault == TakeLines(g, s1, lines, now).fault
  {
    hide Observe;
    if lines != [] {
      SameTaken(g, s, s1, lines[..|lines| - 1], now);
    }
  }

  ghost predicate Inv(g: Settings, w: World, raw: Option<File>, mission: Option<File>) {
    RawOk(g, w, raw) && MissionOk(g, w, mission) && ProgressOf(g, w.s.progress, w.frames)
  }

  lemma StepKeepsInv(g: Settings, w: World, p: Poll)
    requires g.Ok() && Inv(g, w, p.raw, p.mission)
    ensures Inv(g, Step(g, w, p), p.raw, p.mission)
  {
    hide Lines, Partial, Tail, ProgressOf, FramesOf, TakeLines, Taken, Occurs, Clean;
    assert w.rawRead + [] == w.rawRead && w.missionRead + [] == w.missionRead && w.frames + [] == w.frames;
    if w.s.fault.None? {
      RawStep(g, w, p.raw);
      var s1 := PollRaw(g, w.s, p.raw);
      var w1 := w.(s := s1, rawRead := w.rawRead + Consumed(w.s.raw, s1.raw, p.raw));
      if s1.fault.None? {
        MissionStep(g, w1, p.mission, p.now);
        hide PollRaw, PollMission, Consumed;
        MissionThenDeadlines(g, w, w1, p);
      } else {
        hide PollRaw;
        NotPolled(g, w, w1, p);
      }
    }
  }

  lemma NotPolled(g: Settings, w: World, w1: World, p: Poll)
    requires g.Ok() && w.s.fault.None? && w1.s == PollRaw(g, w.s, p.raw) && w1.s.fault == Some(FirmwareAssert)
    requires w1 == w.(s := w1.s, rawRead := w.rawRead + Consumed(w.s.raw, w1.s.raw, p.raw))
    requires w1.s.mission == w.s.mission
    ensures Step(g, w, p).s == w1.s && Step(g, w, p).rawRead == w1.rawRead
    ensures Step(g, w, p).missionRead == w.missionRead && Step(g, w, p).frames == w.frames
  {
    hide PollRaw;
  }

  lemma MissionThenDeadlines(g: Settings, w: World, w1: World, p: Poll)
    requires w.s.fault.None? && w1.s == PollRaw(g, w.s, p.raw) && w1.s.fault.None?
    requires w1 == w.(s := w1.s, rawRead := w.rawRead + Consumed(w.s.raw, w1.s.raw, p.raw))
    requires w1.s.mission == w.s.mission
    requires RawOk(g, w1, p.raw)
    requires var s := PollMission(g, w1.s, p.mission, p.now);
      var w2 := w1.(s := s, missionRead := w1.missionRead + Consumed(w1.s.mission, s.mission, p.mission),
                    frames := w1.frames + NewFrames(g, w1.s, Poll(None, p.mission, p.now)));
      && MissionOk(g, w2, p.mission) && ProgressOf(g, s.progress, w2.frames)
      && s.raw == w1.s.raw && s.overlap == w1.s.overlap && (s.fault.None? || s.fault == Some(MissionInvalid))
    ensures Inv(g, Step(g, w, p), p.raw, p.mission)
  {
    hide PollRaw, PollMission, ProgressOf, Occurs, Clean, Tail, Lines, Partial, FramesOf, Taken, Consumed, TailingOk, Plain;
    var s := PollMission(g, w1.s, p.mission, p.now);
    var w' := Step(g, w, p);
    assert NewFrames(g, w1.s, Poll(None, p.mission, p.now)) == NewFrames(g, w1.s, p);
    assert w'.s == s.(fault := w'.s.fault) && w'.rawRead == w1.rawRead;
    assert s.fault.Some? ==> w'.s == s;
    assert s.fault.None? ==> w'.s.fault in {None, Some(FrameTimeout), Some(VerificationTimeout)};
  }

  // --- Whole runs -----------------------------------------------------------------------------

  function LastRaw(polls: seq<Poll>): Option<File> {
    if polls == [] then None else polls[|polls| - 1].raw
  }

  function LastMission(polls: seq<Poll>): Option<File> {
    if polls == [] then None else polls[|polls| - 1].mission
  }

  lemma {:induction false} ReachedInv(g: Settings, polls: seq<Poll>)
    requires g.Ok() && AppendOnly(polls)
    ensures Inv(g, Reached(g, polls), LastRaw(polls), LastMission(polls))
  {
    hide Lines, Partial, FramesOf, Step, Inv;
    if polls == [] {
      NothingRead(g);
    } else {
      var before, p := polls[..|polls| - 1], polls[|polls| - 1];
      ReachedInv(g, before);
      FilesGrew(g, Reached(g, before), LastRaw(before), LastMission(before), p);
      StepKeepsInv(g, Reached(g, before), p);
    }
  }

  lemma FilesGrew(g: Settings, w: World, raw: Option<File>, mission: Option<File>, p: Poll)
    requires Inv(g, w, raw, mission) && Grows(raw, p.raw) && Grows(mission, p.mission)
    ensures Inv(g, w, p.raw, p.mission)
  {
    hide Lines, Partial, FramesOf, ProgressOf, TailingOk, Occurs, Clean, Tail, Plain, Grows;
    GrownTailing(w.s.raw, w.rawRead, raw, p.raw);
    GrownTailing(w.s.mission, w.missionRead, mission, p.mission);
  }

  lemma NothingRead(g: Settings)
    requires g.Ok()
    ensures Inv(g, BEGIN, None, None)
  {
    NothingReadRaw(g);
    NothingReadMission(g);
    assert GoodRun(g, []) == 0;
    hide RawOk, MissionOk, GoodRun;
  }

  lemma NothingReadRaw(g: Settings)
    requires g.Ok()
    ensures RawOk(g, BEGIN, None)
  {
    assert Tail([], |g.pattern| - 1) == [];
    assert !Occurs(g.pattern, []);
    hide Occurs, Tail;
  }

  lemma NothingReadMission(g: Settings)
    ensures MissionOk(g, BEGIN, None)
  {
    assert Lines([]) == [] && Partial([]) == [] && FramesOf(g, []) == [] && Plain([]) == [];
    hide Lines, Partial, FramesOf, Plain, LineOk;
  }

  /**
   However the appended bytes fall into polls, the watchdog says what one scan of
   the bytes read so far says: the firmware assertion is reported if and only if
   it occurs in them, the mission text is rejected if and only if it is not
   clean, and the frames and the current run of good frames are those of
   splitting the whole text.
   */
  lemma WatchdogIsOneShotScan(g: Settings, polls: seq<Poll>)
    requires g.Ok() && AppendOnly(polls)
    ensures var w := Reached(g, polls);
      && (w.s.fault == Some(FirmwareAssert) <==> Occurs(g.pattern, w.rawRead))
      && (w.s.fault == Some(MissionInvalid) <==> !Clean(g, w.missionRead))
      && w.s.fault != Some(RawInvalid)
      && (w.s.fault != Some(MissionInvalid) ==>
            Plain(w.frames) == FramesOf(g, Lines(w.missionRead)) && w.s.lineNumber == |Lines(w.missionRead)|)
      && w.s.progress.goodFrames == GoodRun(g, w.frames)
      && (w.s.progress.verified <==> exists i | 0 <= i < |w.frames| :: VerifiesAt(g, w.frames, i))
    ensures var w := Reached(g, polls);
      && w.s.raw.offset == |w.rawRead| && w.s.mission.offset == |w.missionRead|
      && (w.rawRead != [] ==> LastRaw(polls).Some? && w.rawRead <= LastRaw(polls).value.bytes)
      && (w.missionRead != [] ==> LastMission(polls).Some? && w.missionRead <= LastMission(polls).value.bytes)
  {
    ReachedInv(g, polls);
    hide Lines, Partial, FramesOf, Step, Reached, Occurs, Clean, GoodRun, VerifiesAt;
  }

  /** Whatever the files do: the first fault is the one reported ever after, and verification is never taken back. */
  lemma {:induction false} FaultAndVerificationAreFinal(g: Settings, polls: seq<Poll>, n: nat)
    requires n <= |polls|
    ensures var s, s' := Reached(g, polls[..n]).s, Reached(g, polls).s;
      && (s.fault.Some? ==> s'.fault == s.fault && s'.progress == s.progress)
      && (s.progress.verified ==> s'.progress.verified)
  {
    if n == |polls| {
      assert polls[..n] == polls;
    } else {
      var before := polls[..|polls| - 1];
      assert before[..n] == polls[..n];
      FaultAndVerificationAreFinal(g, before, n);
      VerifiedStays(g, Reached(g, before).s, polls[|polls| - 1]);
      hide PollRaw, PollMission, Deadlines;
    }
  }

  lemma VerifiedStays(g: Settings, s: State, p: Poll)
    ensures s.progress.verified ==> Polled(g, s, p).progress.verified
  {
    hide Lines, Partial, Tail, Occurs, TakeLines;
    var s1 := PollRaw(g, s, p.raw);
    assert s1.progress == s.progress;
    if p.mission.Some? && Continues(s1.mission, p.mission.value) {
      var chunk := Chunk(s1.mission, p.mission.value, g.maxLineBytes + 1);
      LinesKeepVerified(g, s1.(mission := Advanced(g, s1.mission, p.mission.value, chunk), partial := Partial(s1.partial + chunk)),
                        Lines(s1.partial + chunk), p.now);
    }
  }

  lemma {:induction false} LinesKeepVerified(g: Settings, s: State, lines: seq<Bytes>, now: real)
    ensures s.progress.verified ==> TakeLines(g, s, lines, now).progress.verified
  {
    if lines != [] {
      LinesKeepVerified(g, s, lines[..|lines| - 1], now);
    }
  }
}
