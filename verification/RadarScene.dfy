/**
 The radar scene tracker and the hazard latch (monitor/radar_scene.py).
 Positions are exact and distances are compared squared; times are in
 nanoseconds.  Points and heatmap cells arrive already mapped to forward and
 lateral, a point with whether the clutter model claims it, a cell only when it
 stands out of the calibrated background.
 */
module RadarScene {
  import opened Wrappers

  const TRACK_ASSOCIATION := 0.18
  const TRACK_TTL_NS := 300_000_000
  const DANGER_ENTER := 0.10
  const DANGER_EXIT := 0.13
  const MAX_FORWARD := 3.0
  const HALF_WIDTH := 1.5

  datatype Source = FromPoint | FromHeatmap

  datatype Track = Track(
    id: nat, forward: real, lateral: real, height: Option<real>, uncertainty: real, confidence: real,
    source: Source, confirmed: bool, receivedNs: int, hits: seq<bool>, updatedByPoint: bool)

  datatype Sighting = Sighting(forward: real, lateral: real, height: Option<real>, uncertainty: real, confidence: real)

  datatype Point = Point(at: Sighting, clutter: bool)

  datatype Transition = Ordinary | Duplicate | ResetOrOutOfOrder

  datatype Status =
    | CalibrationOk | Synthetic | CalibrationRequired | CalibrationUnavailable | ProfileMismatch | HeatmapMissing

  datatype Frame = Frame(
    producer: string, transition: Transition, dropped: nat, status: Status, points: seq<Point>, cells: seq<Sighting>)

  datatype Feed = Live | Waiting | StaleFeed | FaultFeed | ReplayEnd | ReplayLoopRestart | OtherFeed

  predicate Trusted(s: Status) {
    s.CalibrationOk? || s.Synthetic?
  }

  predicate Faulty(f: Feed) {
    f.Waiting? || f.StaleFeed? || f.FaultFeed? || f.ReplayEnd? || f.ReplayLoopRestart?
  }

  function Square(x: real): real {
    x * x
  }

  function GapSquared(t: Track, forward: real, lateral: real): real {
    Square(t.forward - forward) + Square(t.lateral - lateral)
  }

  function DistanceSquared(t: Track): real {
    Square(t.forward) + Square(t.lateral)
  }

  function CountTrue(hits: seq<bool>): nat {
    if hits == [] then 0 else CountTrue(hits[..|hits| - 1]) + if hits[|hits| - 1] then 1 else 0
  }

  function LastThree(hits: seq<bool>): seq<bool> {
    if |hits| <= 3 then hits else hits[|hits| - 3..]
  }

  function Misses(n: nat): seq<bool> {
    seq(n, i => false)
  }

  // --- Association ------------------------------------------------------------------------

  /** Points may take any track no point has taken in this frame; cells only heatmap tracks. */
  predicate Candidate(t: Track, source: Source) {
    if source.FromPoint? then !t.updatedByPoint else t.source.FromHeatmap?
  }

  /** The first nearest candidate among the first `n` tracks. */
  function NearestOf(tracks: seq<Track>, n: nat, source: Source, forward: real, lateral: real): (r: Option<nat>)
    requires n <= |tracks|
    ensures r.Some? ==> r.value < n && Candidate(tracks[r.value], source)
    ensures r.Some? ==> forall i | 0 <= i < n && Candidate(tracks[i], source) ::
      GapSquared(tracks[r.value], forward, lateral) <= GapSquared(tracks[i], forward, lateral)
    ensures r.None? ==> forall i | 0 <= i < n :: !Candidate(tracks[i], source)
  {
    if n == 0 then None
    else
      var best := NearestOf(tracks, n - 1, source, forward, lateral);
      if !Candidate(tracks[n - 1], source) then best
      else if best.None? || GapSquared(tracks[n - 1], forward, lateral) < GapSquared(tracks[best.value], forward, lateral)
      then Some(n - 1)
      else best
  }

  /** The track a sighting joins, if one is near enough. */
  function Match(tracks: seq<Track>, s: Sighting, source: Source): (r: Option<nat>)
    ensures r.Some? ==> r.value < |tracks| && Candidate(tracks[r.value], source)
  {
    var nearest := NearestOf(tracks, |tracks|, source, s.forward, s.lateral);
    if nearest.Some? && GapSquared(tracks[nearest.value], s.forward, s.lateral) <= Square(TRACK_ASSOCIATION) then nearest
    else None
  }

  function Marked(hits: seq<bool>): seq<bool> {
    if hits == [] then hits else hits[|hits| - 1 := true]
  }

  function Joined(t: Track, s: Sighting, source: Source, nowNs: int): Track {
    var moved :=
      if source.FromHeatmap? && t.updatedByPoint then t
      else t.(forward := s.forward, lateral := s.lateral, uncertainty := s.uncertainty, confidence := s.confidence,
              source := source, height := if s.height.Some? then s.height else t.height);
    var heard := moved.(receivedNs := nowNs);
    if source.FromPoint? then
      heard.(hits := Marked(t.hits), confirmed := CountTrue(Marked(t.hits)) >= 2, updatedByPoint := true)
    else heard
  }

  function NewTrack(id: nat, s: Sighting, source: Source, nowNs: int): Track {
    Track(id, s.forward, s.lateral, s.height, s.uncertainty, s.confidence, source, false, nowNs, [source.FromPoint?],
          source.FromPoint?)
  }

  datatype Tracks = Tracks(list: seq<Track>, nextId: nat)

  /** `_upsert_track`. */
  function Upsert(ts: Tracks, s: Sighting, source: Source, nowNs: int): Tracks {
    match Match(ts.list, s, source)
    case Some(i) => ts.(list := ts.list[i := Joined(ts.list[i], s, source, nowNs)])
    case None => Tracks(ts.list + [NewTrack(ts.nextId, s, source, nowNs)], ts.nextId + 1)
  }

  /** Which track a sighting goes to. */
  function Target(ts: Tracks, s: Sighting, source: Source): nat {
    var m := Match(ts.list, s, source);
    if m.Some? then ts.list[m.value].id else ts.nextId
  }

  predicate InScene(s: Sighting) {
    0.0 <= s.forward <= MAX_FORWARD && -HALF_WIDTH <= s.lateral < HALF_WIDTH
  }

  predicate AcceptedPoint(p: Point, status: Status) {
    InScene(p.at) && !(p.clutter && status.CalibrationOk?)
  }

  function AcceptedPoints(points: seq<Point>, status: Status): seq<Sighting> {
    if points == [] then []
    else
      var before, last := AcceptedPoints(points[..|points| - 1], status), points[|points| - 1];
      if AcceptedPoint(last, status) then before + [last.at] else before
  }

  function AcceptedCells(cells: seq<Sighting>): seq<Sighting> {
    if cells == [] then []
    else
      var before, last := AcceptedCells(cells[..|cells| - 1]), cells[|cells| - 1];
      if InScene(last) then before + [last] else before
  }

  function UpsertAll(ts: Tracks, ss: seq<Sighting>, source: Source, nowNs: int): Tracks {
    if ss == [] then ts else Upsert(UpsertAll(ts, ss[..|ss| - 1], source, nowNs), ss[|ss| - 1], source, nowNs)
  }

  // --- One frame ------------------------------------------------------------------------------

  predicate Alive(t: Track, nowNs: int) {
    nowNs - t.receivedNs < TRACK_TTL_NS
  }

  function Expired(list: seq<Track>, nowNs: int): seq<Track> {
    if list == [] then []
    else
      var before, last := Expired(list[..|list| - 1], nowNs), list[|list| - 1];
      if Alive(last, nowNs) then before + [last] else before
  }

  /** Windows a frame stands for: itself and the frames lost before it, at most three. */
  function Windows(f: Frame): (n: nat)
    ensures 1 <= n <= 3
  {
    if f.dropped + 1 < 3 then f.dropped + 1 else 3
  }

  function Aged(t: Track, windows: nat): Track {
    var hits := LastThree(t.hits + Misses(windows));
    t.(hits := hits, confirmed := CountTrue(hits) >= 2, updatedByPoint := false)
  }

  function AgedAll(list: seq<Track>, windows: nat): (r: seq<Track>)
    ensures |r| == |list|
  {
    seq(|list|, i requires 0 <= i < |list| => Aged(list[i], windows))
  }

  datatype State = State(tracks: Tracks, status: Status, producer: Option<string>, danger: Option<nat>)

  const NO_TRACKS := Tracks([], 1)

  /** `_clear_evidence`. */
  function Cleared(s: State): State {
    s.(tracks := NO_TRACKS, danger := None)
  }

  /** Whether a frame throws away what came before it. */
  predicate Clears(s: State, f: Frame) {
    (s.producer.Some? && s.producer.value != f.producer) || !f.transition.Ordinary? || !Trusted(f.status)
  }

  /** The tracks a frame finds: those still alive, one or more windows later. */
  function Found(s: State, f: Frame, nowNs: int): Tracks {
    var ts := if Clears(s, f) then NO_TRACKS else s.tracks;
    Tracks(AgedAll(Expired(ts.list, nowNs), Windows(f)), ts.nextId)
  }

  /** `ingest`. */
  function Ingest(s: State, f: Frame, nowNs: int): State {
    var kept := if Clears(s, f) then Cleared(s) else s;
    var s1 := kept.(producer := Some(f.producer), status := f.status);
    if !Trusted(f.status) then s1
    else
      var pointed := UpsertAll(Found(s, f, nowNs), AcceptedPoints(f.points, f.status), FromPoint, nowNs);
      s1.(tracks := if f.status.CalibrationOk? then UpsertAll(pointed, AcceptedCells(f.cells), FromHeatmap, nowNs) else pointed)
  }

  // --- Hazard -----------------------------------------------------------------------------------

  datatype Hazard =
    | SensorFault
    | Unknown
    | Normal(nearestSquared: real)
    | Danger(nearestSquared: real)

  /** Age in whole milliseconds. */
  function AgeMs(t: Track, nowNs: int): int {
    if nowNs - t.receivedNs < 0 then 0 else (nowNs - t.receivedNs) / 1_000_000
  }

  predicate FreshPoint(t: Track, nowNs: int) {
    AgeMs(t, nowNs) < 300 && t.source.FromPoint?
  }

  predicate Entering(t: Track) {
    t.confirmed && DistanceSquared(t) <= Square(DANGER_ENTER)
  }

  function FreshPoints(list: seq<Track>, nowNs: int): seq<Track> {
    if list == [] then []
    else
      var before, last := FreshPoints(list[..|list| - 1], nowNs), list[|list| - 1];
      if FreshPoint(last, nowNs) then before + [last] else before
  }

  /** The last track of that number. */
  function ById(list: seq<Track>, id: nat): (r: Option<Track>)
    ensures r.Some? ==> r.value in list && r.value.id == id
    ensures r.None? ==> forall t | t in list :: t.id != id
  {
    if list == [] then None
    else if list[|list| - 1].id == id then Some(list[|list| - 1])
    else
      assert list == list[..|list| - 1] + [list[|list| - 1]];
      ById(list[..|list| - 1], id)
  }

  function ConfirmedOf(list: seq<Track>): seq<Track> {
    if list == [] then []
    else if list[|list| - 1].confirmed then ConfirmedOf(list[..|list| - 1]) + [list[|list| - 1]]
    else ConfirmedOf(list[..|list| - 1])
  }

  function EnteringOf(list: seq<Track>): seq<Track> {
    if list == [] then []
    else if Entering(list[|list| - 1]) then EnteringOf(list[..|list| - 1]) + [list[|list| - 1]]
    else EnteringOf(list[..|list| - 1])
  }

  /** The first of the nearest tracks. */
  function Closest(list: seq<Track>): (r: Track)
    requires list != []
    ensures r in list && forall t | t in list :: DistanceSquared(r) <= DistanceSquared(t)
  {
    if |list| == 1 then list[0]
    else
      var front, last := list[..|list| - 1], list[|list| - 1];
      assert list == front + [last];
      var best := Closest(front);
      if DistanceSquared(last) < DistanceSquared(best) then last else best
  }

  /** `RadarHazardEvaluator.update` on the recent point tracks; the result and the new latch. */
  function Evaluate(danger: Option<nat>, recent: seq<Track>, status: Status, feed: Feed): (Hazard, Option<nat>) {
    if Faulty(feed) then (SensorFault, None)
    else if !Trusted(status) then (Unknown, None)
    else
      var latched := if danger.Some? then ById(recent, danger.value) else None;
      if latched.Some? && DistanceSquared(latched.value) < Square(DANGER_EXIT) then
        (Danger(DistanceSquared(latched.value)), danger)
      else if EnteringOf(recent) != [] then
        var nearest := Closest(EnteringOf(recent));
        (Danger(DistanceSquared(nearest)), Some(nearest.id))
      else if ConfirmedOf(recent) != [] then (Normal(DistanceSquared(Closest(ConfirmedOf(recent)))), None)
      else (Unknown, None)
  }

  /** `snapshot`: a faulty feed clears everything; then tracks expire and the hazard is evaluated. */
  function Snapshot(s: State, feed: Feed, nowNs: int): (State, Hazard) {
    var s1 := if Faulty(feed) then Cleared(s).(producer := None) else s;
    var list := Expired(s1.tracks.list, nowNs);
    var (hazard, danger) := Evaluate(s1.danger, FreshPoints(list, nowNs), s1.status, feed);
    (s1.(tracks := s1.tracks.(list := list), danger := danger), hazard)
  }

  function Began(status: Status): State {
    State(NO_TRACKS, status, None, None)
  }

  // --- The objects ----------------------------------------------------------------------------------

  class RadarHazardEvaluator {
    var dangerTrackId: Option<nat>

    constructor ()
      ensures dangerTrackId == None
    {
      dangerTrackId := None;
    }

    method Update(recent: seq<Track>, status: Status, feed: Feed) returns (hazard: Hazard)
      modifies this
      ensures (hazard, dangerTrackId) == Evaluate(old(dangerTrackId), recent, status, feed)
    {
      if Faulty(feed) {
        dangerTrackId := None;
        return SensorFault;
      }
      if !Trusted(status) {
        dangerTrackId := None;
        return Unknown;
      }
      if dangerTrackId.Some? {
        var latched := ById(recent, dangerTrackId.value);
        if latched.Some? && DistanceSquared(latched.value) < Square(DANGER_EXIT) {
          return Danger(DistanceSquared(latched.value));
        }
        dangerTrackId := None;
      }
      var entering := EnteringOf(recent);
      if entering != [] {
        var nearest := Closest(entering);
        dangerTrackId := Some(nearest.id);
        return Danger(DistanceSquared(nearest));
      }
      var confirmed := ConfirmedOf(recent);
      if confirmed != [] {
        return Normal(DistanceSquared(Closest(confirmed)));
      }
      return Unknown;
    }
  }

  class RadarSceneEstimator {
    var tracks: seq<Track>
    var nextTrackId: nat
    var status: Status
    var producer: Option<string>
    const hazard: RadarHazardEvaluator

    ghost function View(): State
      reads this, hazard
    {
      State(Tracks(tracks, nextTrackId), status, producer, hazard.dangerTrackId)
    }

    constructor (status: Status)
      ensures View() == Began(status) && fresh(hazard)
    {
      this.status := status;
      tracks, nextTrackId, producer := [], 1, None;
      hazard := new RadarHazardEvaluator();
    }

    method ClearEvidence()
      modifies this`tracks, this`nextTrackId, hazard
      ensures View() == Cleared(old(View()))
    {
      tracks, nextTrackId := [], 1;
      hazard.dangerTrackId := None;
    }

    method UpsertTrack(s: Sighting, source: Source, nowNs: int)
      modifies this`tracks, this`nextTrackId
      ensures Tracks(tracks, nextTrackId) == Upsert(old(Tracks(tracks, nextTrackId)), s, source, nowNs)
    {
      var nearest := FindNearest(s, source);
      if nearest.Some? && GapSquared(tracks[nearest.value], s.forward, s.lateral) <= Square(TRACK_ASSOCIATION) {
        var t := tracks[nearest.value];
        if !(source.FromHeatmap? && t.updatedByPoint) {
          t := t.(forward := s.forward, lateral := s.lateral, uncertainty := s.uncertainty, confidence := s.confidence,
                  source := source);
          if s.height.Some? {
            t := t.(height := s.height);
          }
        }
        t := t.(receivedNs := nowNs);
        if source.FromPoint? {
          var hits := Marked(t.hits);
          t := t.(hits := hits, confirmed := CountTrue(hits) >= 2, updatedByPoint := true);
        }
        tracks := tracks[nearest.value := t];
        return;
      }
      tracks := tracks + [NewTrack(nextTrackId, s, source, nowNs)];
      nextTrackId := nextTrackId + 1;
    }

    method FindNearest(s: Sighting, source: Source) returns (nearest: Option<nat>)
      ensures nearest == NearestOf(tracks, |tracks|, source, s.forward, s.lateral)
    {
      hide GapSquared;
      nearest := None;
      for i := 0 to |tracks|
        invariant nearest == NearestOf(tracks, i, source, s.forward, s.lateral)
      {
        if Candidate(tracks[i], source) {
          if nearest.None? || GapSquared(tracks[i], s.forward, s.lateral) < GapSquared(tracks[nearest.value], s.forward, s.lateral) {
            nearest := Some(i);
          }
        }
      }
    }

    method ExpireTracks(nowNs: int)
      modifies this`tracks
      ensures tracks == Expired(old(tracks), nowNs)
    {
      var kept := [];
      for i := 0 to |tracks|
        invariant tracks == old(tracks) && kept == Expired(tracks[..i], nowNs)
      {
        assert tracks[..i + 1][..i] == tracks[..i];
        if Alive(tracks[i], nowNs) {
          kept := kept + [tracks[i]];
        }
      }
      assert tracks[..|tracks|] == tracks;
      tracks := kept;
    }

    method AgeTracks(windows: nat)
      modifies this`tracks
      ensures tracks == AgedAll(old(tracks), windows)
    {
      for i := 0 to |tracks|
        invariant |tracks| == |old(tracks)|
        invariant forall j | 0 <= j < |tracks| :: tracks[j] == if j < i then Aged(old(tracks)[j], windows) else old(tracks)[j]
      {
        var hits := LastThree(tracks[i].hits + Misses(windows));
        tracks := tracks[i := tracks[i].(hits := hits, confirmed := CountTrue(hits) >= 2, updatedByPoint := false)];
      }
    }

    method IngestPoints(points: seq<Point>, nowNs: int)
      modifies this`tracks, this`nextTrackId
      ensures Tracks(tracks, nextTrackId)
           == UpsertAll(old(Tracks(tracks, nextTrackId)), AcceptedPoints(points, status), FromPoint, nowNs)
    {
      hide Upsert, AcceptedPoint;
      for i := 0 to |points|
        invariant Tracks(tracks, nextTrackId)
               == UpsertAll(old(Tracks(tracks, nextTrackId)), AcceptedPoints(points[..i], status), FromPoint, nowNs)
      {
        assert points[..i + 1][..i] == points[..i];
        if AcceptedPoint(points[i], status) {
          var before := AcceptedPoints(points[..i], status);
          assert (before + [points[i].at])[..|before|] == before;
          UpsertTrack(points[i].at, FromPoint, nowNs);
        }
      }
      assert points[..|points|] == points;
    }

    method IngestCells(cells: seq<Sighting>, nowNs: int)
      modifies this`tracks, this`nextTrackId
      ensures Tracks(tracks, nextTrackId)
           == UpsertAll(old(Tracks(tracks, nextTrackId)), AcceptedCells(cells), FromHeatmap, nowNs)
    {
      hide Upsert, InScene;
      for i := 0 to |cells|
        invariant Tracks(tracks, nextTrackId)
               == UpsertAll(old(Tracks(tracks, nextTrackId)), AcceptedCells(cells[..i]), FromHeatmap, nowNs)
      {
        assert cells[..i + 1][..i] == cells[..i];
        if InScene(cells[i]) {
          var before := AcceptedCells(cells[..i]);
          assert (before + [cells[i]])[..|before|] == before;
          UpsertTrack(cells[i], FromHeatmap, nowNs);
        }
      }
      assert cells[..|cells|] == cells;
    }

    method IngestFrame(f: Frame, nowNs: int)
      modifies this, hazard
      ensures View() == Ingest(old(View()), f, nowNs)
    {
      hide UpsertAll, AcceptedPoints, AcceptedCells, AgedAll, Expired;
      ghost var before := View();
      if producer.Some? && producer.value != f.producer {
        ClearEvidence();
        producer := None;
      }
      if f.transition.Duplicate? || f.transition.ResetOrOutOfOrder? {
        ClearEvidence();
        producer := None;
      }
      producer := Some(f.producer);
      status := f.status;
      if !Trusted(status) {
        ClearEvidence();
        return;
      }
      assert Tracks(tracks, nextTrackId) == if Clears(before, f) then NO_TRACKS else before.tracks;
      ExpireTracks(nowNs);
      AgeTracks(if f.dropped + 1 < 3 then f.dropped + 1 else 3);
      assert Tracks(tracks, nextTrackId) == Found(before, f, nowNs);
      IngestPoints(f.points, nowNs);
      if status.CalibrationOk? {
        IngestCells(f.cells, nowNs);
      }
    }

    method TakeSnapshot(feed: Feed, nowNs: int) returns (h: Hazard)
      modifies this, hazard
      ensures (View(), h) == Snapshot(old(View()), feed, nowNs)
    {
      hide Expired, FreshPoints, Evaluate;
      if Faulty(feed) {
        ClearEvidence();
        producer := None;
      }
      ExpireTracks(nowNs);
      h := hazard.Update(FreshPoints(tracks, nowNs), status, feed);
    }
  }
}
