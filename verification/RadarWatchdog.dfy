/**
 The evidence watchdog of one radar capture epoch (sensors/radar_watchdog.py):
 at each poll it reads what was appended to the raw and mission files since the
 last one.  A file is the identity and the bytes found when it was opened.
 */
module RadarWatchdog {
  import opened Wrappers

  datatype File = File(identity: int, bytes: Bytes)

  datatype Heatmap = Heatmap(azimuthBins: int, rangeBins: int, rangeStep: real)

  datatype Frame = Frame(number: int, complete: bool, profileId: string, heatmap: Option<Heatmap>)

  /** What a decoded log line holds. */
  datatype Entry = FrameEntry(frame: Frame) | OtherEntry

  /** The sizes are those of the original or any others: nothing below depends on them. */
  datatype Settings = Settings(
    pattern: Bytes,          // the firmware's low-power timing assertion
    continuityBytes: nat, rawReadBytes: nat, maxLineBytes: nat,
    decode: Bytes -> Option<Entry>,
    profileId: string, heatmap: Heatmap,
    startedAt: real, firstFrameTimeout: real, frameTimeout: real,
    requiredFrames: nat, verificationTimeout: real)
  {
    predicate Ok() {
      pattern != []
    }
  }

  datatype Fault = RawInvalid | MissionInvalid | FirmwareAssert | FrameTimeout | VerificationTimeout

  /** One tailed file: identity once opened, bytes consumed, and the last of them. */
  datatype Tailing = Tailing(identity: Option<int>, offset: nat, tail: Bytes)

  datatype Progress = Progress(verified: bool, goodFrames: nat, lastSeen: Option<real>, latestNumber: Option<int>)

  datatype State = State(
    raw: Tailing, overlap: Bytes,
    mission: Tailing, partial: Bytes, lineNumber: nat,
    progress: Progress, fault: Option<Fault>)

  const UNOPENED := Tailing(None, 0, [])
  const START := State(UNOPENED, [], UNOPENED, [], 0, Progress(false, 0, None, None), None)

  // --- Bytes ----------------------------------------------------------------------

  predicate OccursAt(p: Bytes, s: Bytes, i: int) {
    0 <= i && i + |p| <= |s| && s[i..i + |p|] == p
  }

  predicate Occurs(p: Bytes, s: Bytes) {
    exists i | 0 <= i <= |s| :: OccursAt(p, s, i)
  }

  /** The last `n` bytes, or all when there are fewer. */
  function Tail(s: Bytes, n: nat): (r: Bytes)
    ensures |r| == if |s| <= n then |s| else n
  {
    if |s| <= n then s else s[|s| - n..]
  }

  /** The complete lines of a text, and what follows the last newline. */
  function Lines(s: Bytes): seq<Bytes> {
    if s == [] then []
    else
      var before, last := s[..|s| - 1], s[|s| - 1];
      if last == NEWLINE then Lines(before) + [Partial(before)] else Lines(before)
  }

  function Partial(s: Bytes): Bytes {
    if s == [] || s[|s| - 1] == NEWLINE then [] else Partial(s[..|s| - 1]) + [s[|s| - 1]]
  }

  // --- One poll -------------------------------------------------------------------

  /** Whether the opened file is still the one being tailed. */
  predicate Continues(t: Tailing, f: File) {
    && (t.identity.Some? ==> t.identity.value == f.identity)
    && t.offset <= |f.bytes|
    && (t.tail == [] || (|t.tail| <= t.offset && f.bytes[t.offset - |t.tail|..t.offset] == t.tail))
  }

  function Chunk(t: Tailing, f: File, limit: nat): Bytes
    requires t.offset <= |f.bytes|
  {
    f.bytes[t.offset..Min(|f.bytes|, t.offset + limit)]
  }

  function Advanced(g: Settings, t: Tailing, f: File, chunk: Bytes): Tailing {
    Tailing(Some(f.identity), t.offset + |chunk|, Tail(t.tail + chunk, g.continuityBytes))
  }

  function PollRaw(g: Settings, s: State, file: Option<File>): State {
    match file
    case None => if s.raw.identity.Some? then s.(fault := Some(RawInvalid)) else s
    case Some(f) =>
      if !Continues(s.raw, f) then s.(fault := Some(RawInvalid))
      else
        var chunk := Chunk(s.raw, f, g.rawReadBytes);
        var candidate := s.overlap + chunk;
        var s1 := s.(raw := Advanced(g, s.raw, f, chunk));
        if Occurs(g.pattern, candidate) then s1.(fault := Some(FirmwareAssert))
        else s1.(overlap := if |g.pattern| <= 1 then candidate else Tail(candidate, |g.pattern| - 1))
  }

  predicate Qualifies(g: Settings, f: Frame) {
    f.complete && f.profileId == g.profileId && f.heatmap == Some(g.heatmap)
  }

  function Observe(g: Settings, p: Progress, f: Frame, now: real): Progress {
    var good := if Qualifies(g, f) then p.goodFrames + 1 else 0;
    Progress(p.verified || (good > 0 && good >= g.requiredFrames && now < g.startedAt + g.verificationTimeout),
             good, Some(now), Some(f.number))
  }

  predicate LineOk(g: Settings, line: Bytes) {
    |line| <= g.maxLineBytes && g.decode(line).Some?
  }

  /** The lines of one read, in order, up to the first that is too long or does not decode. */
  function TakeLines(g: Settings, s: State, lines: seq<Bytes>, now: real): State {
    if lines == [] then s
    else
      var before := TakeLines(g, s, lines[..|lines| - 1], now);
      var line := lines[|lines| - 1];
      if before.fault.Some? then before
      else if |line| > g.maxLineBytes then before.(fault := Some(MissionInvalid))
      else
        var s1 := before.(lineNumber := before.lineNumber + 1);
        match g.decode(line)
        case None => s1.(fault := Some(MissionInvalid))
        case Some(FrameEntry(frame)) => s1.(progress := Observe(g, s1.progress, frame, now))
        case Some(OtherEntry) => s1
  }

  function PollMission(g: Settings, s: State, file: Option<File>, now: real): State {
    match file
    case None => if s.mission.identity.Some? then s.(fault := Some(MissionInvalid)) else s
    case Some(f) =>
      if !Continues(s.mission, f) then s.(fault := Some(MissionInvalid))
      else
        var chunk := Chunk(s.mission, f, g.maxLineBytes + 1);
        var buffered := s.partial + chunk;
        var s1 := s.(mission := Advanced(g, s.mission, f, chunk), partial := Partial(buffered));
        if |s1.partial| > g.maxLineBytes then s1.(fault := Some(MissionInvalid))
        else TakeLines(g, s1, Lines(buffered), now)
  }

  function Deadlines(g: Settings, s: State, now: real): State {
    match s.progress.lastSeen
    case None => if now >= g.startedAt + g.firstFrameTimeout then s.(fault := Some(FrameTimeout)) else s
    case Some(seen) =>
      if now - seen > g.frameTimeout then s.(fault := Some(FrameTimeout))
      else if !s.progress.verified && now >= g.startedAt + g.verificationTimeout then s.(fault := Some(VerificationTimeout))
      else s
  }

  datatype Poll = Poll(raw: Option<File>, mission: Option<File>, now: real)

  function Polled(g: Settings, s: State, p: Poll): State {
    var s1 := if s.fault.None? then PollRaw(g, s, p.raw) else s;
    var s2 := if s1.fault.None? then PollMission(g, s1, p.mission, p.now) else s1;
    if s2.fault.None? then Deadlines(g, s2, p.now) else s2
  }

  // --- The watchdog object ----------------------------------------------------------

  class RadarEpochWatchdog {
    const g: Settings
    var raw: Tailing
    var rawOverlap: Bytes
    var mission: Tailing
    var missionPartial: Bytes
    var missionLineNumber: nat
    var verified: bool
    var consecutiveGoodFrames: nat
    var lastFrameObserved: Option<real>
    var latestFrameNumber: Option<int>
    var faultReason: Option<Fault>

    ghost function View(): State
      reads this
    {
      State(raw, rawOverlap, mission, missionPartial, missionLineNumber,
            Progress(verified, consecutiveGoodFrames, lastFrameObserved, latestFrameNumber), faultReason)
    }

    constructor (g: Settings)
      requires g.Ok()
      ensures this.g == g && View() == START
    {
      this.g := g;
      raw, rawOverlap, mission, missionPartial, missionLineNumber := UNOPENED, [], UNOPENED, [], 0;
      verified, consecutiveGoodFrames, lastFrameObserved, latestFrameNumber, faultReason := false, 0, None, None, None;
    }

    method PollOnce(p: Poll)
      modifies this
      ensures View() == Polled(g, old(View()), p)
    {
      hide PollRaw, PollMission;
      if faultReason.None? {
        ScanRaw(p.raw);
      }
      if faultReason.None? {
        ScanMission(p.mission, p.now);
      }
      if faultReason.None? {
        ApplyDeadlines(p.now);
      }
    }

    method ScanRaw(file: Option<File>)
      modifies this`raw, this`rawOverlap, this`faultReason
      ensures View() == PollRaw(g, old(View()), file)
    {
      hide Occurs, Tail;
      if file.None? {
        if raw.identity.Some? {
          faultReason := Some(RawInvalid);
        }
        return;
      }
      var f := file.value;
      if !Continues(raw, f) {
        faultReason := Some(RawInvalid);
        return;
      }
      var chunk := Chunk(raw, f, g.rawReadBytes);
      raw := Advanced(g, raw, f, chunk);
      var candidate := rawOverlap + chunk;
      if Occurs(g.pattern, candidate) {
        faultReason := Some(FirmwareAssert);
        return;
      }
      rawOverlap := if |g.pattern| <= 1 then candidate else Tail(candidate, |g.pattern| - 1);
    }

    method ScanMission(file: Option<File>, now: real)
      modifies this`mission, this`missionPartial, this`missionLineNumber, this`verified, this`consecutiveGoodFrames,
               this`lastFrameObserved, this`latestFrameNumber, this`faultReason
      requires faultReason.None?
      ensures View() == PollMission(g, old(View()), file, now)
    {
      hide Lines, Partial, Tail, Observe;
      if file.None? {
        if mission.identity.Some? {
          faultReason := Some(MissionInvalid);
        }
        return;
      }
      var f := file.value;
      if !Continues(mission, f) {
        faultReason := Some(MissionInvalid);
        return;
      }
      var chunk := Chunk(mission, f, g.maxLineBytes + 1);
      mission := Advanced(g, mission, f, chunk);
      var buffered := missionPartial + chunk;
      var lines := Lines(buffered);
      missionPartial := Partial(buffered);
      if |missionPartial| > g.maxLineBytes {
        faultReason := Some(MissionInvalid);
        return;
      }
      ReadLines(lines, now);
    }

    method ReadLines(lines: seq<Bytes>, now: real)
      requires faultReason.None?
      modifies this`missionLineNumber, this`verified, this`consecutiveGoodFrames,
               this`lastFrameObserved, this`latestFrameNumber, this`faultReason
      ensures View() == TakeLines(g, old(View()), lines, now)
    {
      hide Observe;
      for i := 0 to |lines|
        invariant View() == TakeLines(g, old(View()), lines[..i], now) && faultReason.None?
      {
        assert lines[..i + 1][..i] == lines[..i];
        var line := lines[i];
        if |line| > g.maxLineBytes {
          faultReason := Some(MissionInvalid);
          FaultStays(g, old(View()), lines, i + 1, now);
          return;
        }
        missionLineNumber := missionLineNumber + 1;
        match g.decode(line) {
        case None =>
          faultReason := Some(MissionInvalid);
          FaultStays(g, old(View()), lines, i + 1, now);
          return;
        case Some(FrameEntry(frame)) => ObserveFrame(frame, now);
        case Some(OtherEntry) =>
        }
      }
      assert lines[..|lines|] == lines;
    }

    method ObserveFrame(frame: Frame, now: real)
      modifies this`verified, this`consecutiveGoodFrames, this`lastFrameObserved, this`latestFrameNumber
      ensures View().progress == Observe(g, old(View()).progress, frame, now)
    {
      lastFrameObserved, latestFrameNumber := Some(now), Some(frame.number);
      if Qualifies(g, frame) {
        consecutiveGoodFrames := consecutiveGoodFrames + 1;
        if consecutiveGoodFrames >= g.requiredFrames && now < g.startedAt + g.verificationTimeout {
          verified := true;
        }
      } else {
        consecutiveGoodFrames := 0;
      }
    }

    method ApplyDeadlines(now: real)
      modifies this`faultReason
      ensures View() == Deadlines(g, old(View()), now)
    {
      if lastFrameObserved.None? {
        if now >= g.startedAt + g.firstFrameTimeout {
          faultReason := Some(FrameTimeout);
        }
        return;
      }
      if now - lastFrameObserved.value > g.frameTimeout {
        faultReason := Some(FrameTimeout);
        return;
      }
      if !verified && now >= g.startedAt + g.verificationTimeout {
        faultReason := Some(VerificationTimeout);
      }
    }
  }

  lemma {:induction false} FaultStays(g: Settings, s: State, lines: seq<Bytes>, n: nat, now: real)
    requires n <= |lines| && TakeLines(g, s, lines[..n], now).fault.Some?
    ensures TakeLines(g, s, lines, now) == TakeLines(g, s, lines[..n], now)
  {
    if n == |lines| {
      assert lines[..n] == lines;
    } else {
      assert lines[..|lines| - 1][..n] == lines[..n];
      FaultStays(g, s, lines[..|lines| - 1], n, now);
    }
  }
}
