/** When the watchdog reports a replaced file, a silent radar or a late verification, over every run. */
module RadarWatchdogFaults {
  import opened Wrappers
  import opened RadarWatchdog
  import opened RadarWatchdogRuns

  // --- Deadlines ------------------------------------------------------------------

  /** A frame counts towards verification exactly when it is complete and has the expected profile and heatmap. */
  lemma QualifiesIff(g: Settings, f: Frame)
    ensures Qualifies(g, f) <==>
      && f.complete && f.profileId == g.profileId && f.heatmap.Some?
      && f.heatmap.value.azimuthBins == g.heatmap.azimuthBins && f.heatmap.value.rangeBins == g.heatmap.rangeBins
      && f.heatmap.value.rangeStep == g.heatmap.rangeStep
  {
  }

  predicate EvidenceFault(f: Option<Fault>) {
    f in {Some(RawInvalid), Some(MissionInvalid), Some(FirmwareAssert)}
  }

  /** The radar has been silent for too long: no frame in time at all, or none since the last. */
  predicate Silent(g: Settings, frames: seq<Sighting>, now: real) {
    if frames == [] then now >= g.startedAt + g.firstFrameTimeout else now - frames[|frames| - 1].now > g.frameTimeout
  }

  /** Frames came, but none completed a long enough run in time. */
  predicate Unverified(g: Settings, frames: seq<Sighting>, now: real) {
    frames != [] && !(exists i | 0 <= i < |frames| :: VerifiesAt(g, frames, i)) && now >= g.startedAt + g.verificationTimeout
  }

  /** A poll without an evidence fault ends with the deadlines, judged on what it has read. */
  lemma DeadlinesLast(g: Settings, s: State, p: Poll)
    requires s.fault.None? && !EvidenceFault(Polled(g, s, p).fault)
    ensures var s' := Polled(g, s, p); s' == Deadlines(g, s'.(fault := None), p.now)
  {
    hide Occurs, Continues, TakeLines, Lines, Partial, Tail, Chunk, Advanced;
    var s1 := PollRaw(g, s, p.raw);
    if s1.fault.None? {
      OnlyMissionFault(g, s1, p);
    }
  }

  lemma OnlyMissionFault(g: Settings, s: State, p: Poll)
    requires s.fault.None?
    ensures PollMission(g, s, p.mission, p.now).fault in {None, Some(MissionInvalid)}
  {
    hide Lines, Partial, Tail, Advanced, TakeLines;
    if p.mission.Some? && Continues(s.mission, p.mission.value) {
      var chunk := Chunk(s.mission, p.mission.value, g.maxLineBytes + 1);
      LinesFault(g, s.(mission := Advanced(g, s.mission, p.mission.value, chunk), partial := Partial(s.partial + chunk)),
                 Lines(s.partial + chunk), p.now);
    }
  }

  lemma {:induction false} LinesFault(g: Settings, s: State, lines: seq<Bytes>, now: real)
    requires s.fault.None?
    ensures TakeLines(g, s, lines, now).fault in {None, Some(MissionInvalid)}
  {
    if lines != [] {
      LinesFault(g, s, lines[..|lines| - 1], now);
    }
  }

  /**
   A poll of a watchdog without a fault, over append-only files.  When the bytes
   read hold neither the firmware assertion nor an unclean mission text, it
   reports a silent radar if and only if the radar is silent, and otherwise a late
   verification if and only if frames came and none completed a run in time.
   */
  lemma DeadlinesMean(g: Settings, polls: seq<Poll>, p: Poll)
    requires g.Ok() && AppendOnly(polls + [p]) && Reached(g, polls).s.fault.None?
    requires var w := Reached(g, polls + [p]); !Occurs(g.pattern, w.rawRead) && Clean(g, w.missionRead)
    ensures var w := Reached(g, polls + [p]);
      && (w.s.fault == Some(FrameTimeout) <==> Silent(g, w.frames, p.now))
      && (w.s.fault == Some(VerificationTimeout) <==> !Silent(g, w.frames, p.now) && Unverified(g, w.frames, p.now))
      && (w.s.fault == None <==> !Silent(g, w.frames, p.now) && !Unverified(g, w.frames, p.now))
  {
    hide Reached, Occurs, Clean, Lines, Partial, FramesOf, Plain, GoodRun, VerifiesAt, Polled, AppendOnly, Silent, Unverified, Deadlines;
    var run := polls + [p];
    NextReached(g, polls, p);
    WatchdogIsOneShotScan(g, run);
    LastSightingIs(g, run);
    DeadlinesLast(g, Reached(g, polls).s, p);
    DeadlineCases(g, Reached(g, run).s, Reached(g, run).frames, p.now);
  }

  lemma NextReached(g: Settings, polls: seq<Poll>, p: Poll)
    ensures Reached(g, polls + [p]).s == Polled(g, Reached(g, polls).s, p)
  {
    assert (polls + [p])[..|polls|] == polls;
    hide Polled;
  }

  lemma DeadlineCases(g: Settings, s: State, frames: seq<Sighting>, now: real)
    requires s.progress.lastSeen == if frames == [] then None else Some(frames[|frames| - 1].now)
    requires s.progress.verified <==> exists i | 0 <= i < |frames| :: VerifiesAt(g, frames, i)
    ensures Deadlines(g, s.(fault := None), now).fault ==
      if Silent(g, frames, now) then Some(FrameTimeout)
      else if Unverified(g, frames, now) then Some(VerificationTimeout) else None
  {
    hide VerifiesAt;
  }

  /** Time and number of the last frame seen, over append-only files. */
  lemma LastSightingIs(g: Settings, polls: seq<Poll>)
    requires g.Ok() && AppendOnly(polls)
    ensures var w := Reached(g, polls);
      && w.s.progress.lastSeen == (if w.frames == [] then None else Some(w.frames[|w.frames| - 1].now))
      && w.s.progress.latestNumber == if w.frames == [] then None else Some(w.frames[|w.frames| - 1].frame.number)
  {
    ReachedInv(g, polls);
    hide Reached, RawOk, MissionOk, GoodRun, VerifiesAt;
  }

  // --- Replaced files -----------------------------------------------------------------

  /** The identity of the first file found. */
  function FirstFound(files: seq<Option<File>>): Option<int> {
    if files == [] then None
    else
      var before := FirstFound(files[..|files| - 1]);
      if before.Some? then before
      else if files[|files| - 1].Some? then Some(files[|files| - 1].value.identity) else None
  }

  function Raws(polls: seq<Poll>): seq<Option<File>> {
    seq(|polls|, i requires 0 <= i < |polls| => polls[i].raw)
  }

  function Missions(polls: seq<Poll>): seq<Option<File>> {
    seq(|polls|, i requires 0 <= i < |polls| => polls[i].mission)
  }

  /** A tailed file as the bytes read and the first identity found. */
  predicate Tracks(g: Settings, t: Tailing, read: Bytes, identity: Option<int>) {
    t == Tailing(identity, |read|, Tail(read, g.continuityBytes)) && (identity == None ==> read == [])
  }

  lemma PollTracks(g: Settings, t: Tailing, read: Bytes, identity: Option<int>, file: Option<File>, limit: nat)
    requires Tracks(g, t, read, identity) && (file.Some? ==> Continues(t, file.value)) && (file.None? ==> identity.None?)
    ensures file.Some? ==>
      var chunk := Chunk(t, file.value, limit);
      var t' := Advanced(g, t, file.value, chunk);
      && Tracks(g, t', read + chunk, if identity.Some? then identity else Some(file.value.identity))
      && Consumed(t, t', file) == chunk
  {
    if file.Some? {
      TailJoin(read, Chunk(t, file.value, limit), g.continuityBytes);
    }
  }

  ghost predicate BothTracked(g: Settings, w: World, raw: Option<int>, mission: Option<int>) {
    w.s.fault.None? ==> Tracks(g, w.s.raw, w.rawRead, raw) && Tracks(g, w.s.mission, w.missionRead, mission)
  }

  lemma {:induction false} ReachedTracked(g: Settings, polls: seq<Poll>)
    ensures BothTracked(g, Reached(g, polls), FirstFound(Raws(polls)), FirstFound(Missions(polls)))
  {
    if polls == [] {
      assert Tail([], g.continuityBytes) == [];
    } else {
      var front, p := polls[..|polls| - 1], polls[|polls| - 1];
      ReachedTracked(g, front);
      assert Raws(polls)[..|polls| - 1] == Raws(front) && Missions(polls)[..|polls| - 1] == Missions(front);
      hide Reached, Raws, Missions;
      StepTracked(g, Reached(g, front), p, FirstFound(Raws(front)), FirstFound(Missions(front)));
    }
  }

  function FoundNow(before: Option<int>, file: Option<File>): Option<int> {
    if before.Some? then before else if file.Some? then Some(file.value.identity) else None
  }

  lemma StepTracked(g: Settings, w: World, p: Poll, raw: Option<int>, mission: Option<int>)
    requires BothTracked(g, w, raw, mission)
    ensures BothTracked(g, RadarWatchdogRuns.Step(g, w, p), FoundNow(raw, p.raw), FoundNow(mission, p.mission))
  {
    hide Occurs, Lines, Partial, Tail, TakeLines, Continues, Chunk, Advanced, Tracks, NewFrames;
    var w' := RadarWatchdogRuns.Step(g, w, p);
    if w'.s.fault.None? {
      RawTailed(g, w.s, w.rawRead, raw, p.raw);
      var s1 := PollRaw(g, w.s, p.raw);
      MissionTailed(g, s1, w.missionRead, mission, p);
    }
  }

  lemma RawTailed(g: Settings, s: State, read: Bytes, identity: Option<int>, file: Option<File>)
    requires s.fault.None? && Tracks(g, s.raw, read, identity)
    ensures var s1 := PollRaw(g, s, file);
      && s1.mission == s.mission && s1.partial == s.partial
      && (s1.fault.None? ==> Tracks(g, s1.raw, read + Consumed(s.raw, s1.raw, file), FoundNow(identity, file)))
  {
    hide Occurs, Tail;
    assert read + [] == read;
    if file.Some? && Continues(s.raw, file.value) {
      PollTracks(g, s.raw, read, identity, file, g.rawReadBytes);
    }
    hide Chunk, Advanced;
  }

  lemma MissionTailed(g: Settings, s: State, read: Bytes, identity: Option<int>, p: Poll)
    requires s.fault.None? && Tracks(g, s.mission, read, identity)
    ensures var s1 := PollMission(g, s, p.mission, p.now);
      && s1.raw == s.raw
      && (s1.fault.None? ==> Tracks(g, s1.mission, read + Consumed(s.mission, s1.mission, p.mission), FoundNow(identity, p.mission)))
  {
    hide Tail, Lines, Partial, TakeLines;
    assert read + [] == read;
    if p.mission.Some? && Continues(s.mission, p.mission.value) {
      PollTracks(g, s.mission, read, identity, p.mission, g.maxLineBytes + 1);
      var chunk := Chunk(s.mission, p.mission.value, g.maxLineBytes + 1);
      LinesLeaveFiles(g, s.(mission := Advanced(g, s.mission, p.mission.value, chunk), partial := Partial(s.partial + chunk)),
                      Lines(s.partial + chunk), p.now);
    }
    hide Chunk, Advanced;
  }

  lemma {:induction false} LinesLeaveFiles(g: Settings, s: State, lines: seq<Bytes>, now: real)
    ensures TakeLines(g, s, lines, now).raw == s.raw && TakeLines(g, s, lines, now).mission == s.mission
  {
    if lines != [] {
      LinesLeaveFiles(g, s, lines[..|lines| - 1], now);
    }
  }

  /** The file is not the one that was read from: gone, another one, shorter, or with other bytes before the end of what was read. */
  predicate Replaced(g: Settings, first: Option<int>, read: Bytes, file: Option<File>) {
    match file
    case None => first.Some?
    case Some(f) =>
      || (first.Some? && f.identity != first.value)
      || |f.bytes| < |read|
      || Tail(f.bytes[..|read|], g.continuityBytes) != Tail(read, g.continuityBytes)
  }

  lemma ReplacedIff(g: Settings, t: Tailing, read: Bytes, first: Option<int>, file: Option<File>)
    requires Tracks(g, t, read, first)
    ensures file.Some? ==> (Continues(t, file.value) <==> !Replaced(g, first, read, file))
  {
    if file.Some? && |read| <= |file.value.bytes| {
      TailOfPrefix(file.value.bytes, |read|, g.continuityBytes);
      hide Tail;
    }
  }

  lemma TailOfPrefix(bytes: Bytes, n: nat, keep: nat)
    requires n <= |bytes|
    ensures var m := if n <= keep then n else keep; Tail(bytes[..n], keep) == bytes[n - m..n]
  {
  }

  /**
   Whatever the files do: a poll of a watchdog without a fault reports invalid raw
   evidence if and only if the raw file is not the one read from so far, and then
   nothing else; and invalid mission evidence for a replaced mission file unless
   the raw evidence is at fault first.
   */
  lemma ReplacementReported(g: Settings, polls: seq<Poll>, p: Poll)
    requires Reached(g, polls).s.fault.None?
    ensures var w := Reached(g, polls);
      var fault := Polled(g, w.s, p).fault;
      && (fault == Some(RawInvalid) <==> Replaced(g, FirstFound(Raws(polls)), w.rawRead, p.raw))
      && (Replaced(g, FirstFound(Missions(polls)), w.missionRead, p.mission) ==>
            fault in {Some(RawInvalid), Some(FirmwareAssert), Some(MissionInvalid)})
  {
    ReachedTracked(g, polls);
    var w := Reached(g, polls);
    ReplacedIff(g, w.s.raw, w.rawRead, FirstFound(Raws(polls)), p.raw);
    ReplacedIff(g, w.s.mission, w.missionRead, FirstFound(Missions(polls)), p.mission);
    hide Reached, Raws, Missions, FirstFound, Occurs, Continues, Lines, Partial, Tail, Chunk, Advanced, TakeLines;
    PollFaults(g, w.s, p);
  }

  lemma PollFaults(g: Settings, s: State, p: Poll)
    requires s.fault.None?
    ensures Polled(g, s, p).fault == Some(RawInvalid) <==>
      (p.raw.None? && s.raw.identity.Some?) || (p.raw.Some? && !Continues(s.raw, p.raw.value))
    ensures (p.mission.None? && s.mission.identity.Some?) || (p.mission.Some? && !Continues(s.mission, p.mission.value)) ==>
      Polled(g, s, p).fault in {Some(RawInvalid), Some(FirmwareAssert), Some(MissionInvalid)}
  {
    hide Occurs, Continues, Lines, Partial, Tail, Chunk, Advanced, TakeLines;
    var s1 := PollRaw(g, s, p.raw);
    assert s1.mission == s.mission;
    if s1.fault.None? {
      OnlyMissionFault(g, s1, p);
    }
  }
}
