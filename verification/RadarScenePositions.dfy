/**
 Where the tracks of the radar scene stand, which sightings a frame takes, what
 it throws away, and what distance a danger reports.
 */
module RadarScenePositions {
  import opened Wrappers
  import opened RadarScene
  import opened RadarSceneRuns

  // --- Sightings ---------------------------------------------------------------------------

  /** Exactly the points in the scene are taken, without those the clutter model claims on a calibrated frame. */
  lemma {:induction false} AcceptedAre(points: seq<Point>, status: Status)
    ensures forall s :: s in AcceptedPoints(points, status) <==>
      exists k | 0 <= k < |points| ::
        && points[k].at == s && 0.0 <= s.forward <= 3.0 && -1.5 <= s.lateral < 1.5
        && !(points[k].clutter && status.CalibrationOk?)
  {
    if points != [] {
      var front, last := points[..|points| - 1], points[|points| - 1];
      AcceptedAre(front, status);
      forall s ensures s in AcceptedPoints(points, status) <==>
        s in AcceptedPoints(front, status) || (s == last.at && AcceptedPoint(last, status))
      {
      }
      assert forall k | 0 <= k < |front| :: front[k] == points[k];
      assert points[|points| - 1] == last;
    }
  }

  /** A sighting joins the nearest track that may take it, if one is within 0.18 m. */
  lemma JoinsNearest(tracks: seq<Track>, s: Sighting, source: Source)
    ensures var m := Match(tracks, s, source);
      && (m.Some? <==> exists i | 0 <= i < |tracks| :: Candidate(tracks[i], source) && Gap(tracks[i], s) <= 0.18 * 0.18)
      && (m.Some? ==> forall i | 0 <= i < |tracks| && Candidate(tracks[i], source) :: Gap(tracks[m.value], s) <= Gap(tracks[i], s))
  {
    hide NearestOf;
    assert forall t: Track :: GapSquared(t, s.forward, s.lateral) == Gap(t, s);
    var n := NearestOf(tracks, |tracks|, source, s.forward, s.lateral);
    hide Gap, GapSquared;
  }

  function Gap(t: Track, s: Sighting): real {
    (t.forward - s.forward) * (t.forward - s.forward) + (t.lateral - s.lateral) * (t.lateral - s.lateral)
  }

  // --- One frame -----------------------------------------------------------------------------

  /** The track stands where the point was seen, with what came with the point. */
  predicate StandsAt(t: Track, s: Sighting, nowNs: int) {
    && t.forward == s.forward && t.lateral == s.lateral && t.uncertainty == s.uncertainty && t.confidence == s.confidence
    && (s.height.Some? ==> t.height == s.height) && t.receivedNs == nowNs && t.source.FromPoint? && t.updatedByPoint
  }

  predicate Placed(r: Tracks, id: nat, s: Sighting, nowNs: int) {
    exists i | 0 <= i < |r.list| :: r.list[i].id == id && StandsAt(r.list[i], s, nowNs)
  }

  /** After a frame's points each point has its track, and the track stands at the point. */
  lemma {:induction false} PointsPlace(ts: Tracks, ss: seq<Sighting>, nowNs: int, k: nat)
    requires k < |ss|
    ensures Placed(UpsertAll(ts, ss, FromPoint, nowNs), TargetsOf(ts, ss, FromPoint, nowNs)[k], ss[k], nowNs)
  {
    var front, last := ss[..|ss| - 1], ss[|ss| - 1];
    var r := UpsertAll(ts, front, FromPoint, nowNs);
    if k < |front| {
      PointsPlace(ts, front, nowNs, k);
      assert front[k] == ss[k];
      hide UpsertAll, TargetsOf, Upsert, StandsAt, Target;
      PlacedStays(r, TargetsOf(ts, front, FromPoint, nowNs)[k], ss[k], last, nowNs);
    } else {
      PlacedNow(r, last, nowNs);
      hide UpsertAll, TargetsOf, Upsert, StandsAt, Target;
    }
  }

  lemma PlacedNow(r: Tracks, s: Sighting, nowNs: int)
    ensures Placed(Upsert(r, s, FromPoint, nowNs), Target(r, s, FromPoint), s, nowNs)
  {
    hide NearestOf, CountTrue, GapSquared;
    var m, r' := Match(r.list, s, FromPoint), Upsert(r, s, FromPoint, nowNs);
    if m.Some? {
      assert StandsAt(r'.list[m.value], s, nowNs);
    } else {
      assert StandsAt(r'.list[|r.list|], s, nowNs);
    }
  }

  lemma PlacedStays(r: Tracks, id: nat, s: Sighting, next: Sighting, nowNs: int)
    requires Placed(r, id, s, nowNs)
    ensures Placed(Upsert(r, next, FromPoint, nowNs), id, s, nowNs)
  {
    hide NearestOf, CountTrue, GapSquared;
    var i :| 0 <= i < |r.list| && r.list[i].id == id && StandsAt(r.list[i], s, nowNs);
    assert Upsert(r, next, FromPoint, nowNs).list[i] == r.list[i];
  }

  /** A point track after a frame: hit, and standing at the point; or one that was there, where it was. */
  lemma PointTrackAfter(w: World, f: Frame, nowNs: int, t: Track)
    requires Inv(w) && Trusted(f.status) && t in Ingest(w.s, f, nowNs).tracks.list && t.source.FromPoint?
    ensures t.id in Hit(w.s, f, nowNs) ==>
      exists k | 0 <= k < |Hit(w.s, f, nowNs)| ::
        Hit(w.s, f, nowNs)[k] == t.id && |Hit(w.s, f, nowNs)| == |AcceptedPoints(f.points, f.status)|
        && StandsAt(t, AcceptedPoints(f.points, f.status)[k], nowNs)
    ensures t.id !in Hit(w.s, f, nowNs) ==>
      exists t0 | t0 in w.s.tracks.list :: t0.id == t.id && t0.source.FromPoint? && SamePlace(t0, t)
  {
    var pointed := IngestEffect(w, f, nowNs);
    var found, after := Found(w.s, f, nowNs), Ingest(w.s, f, nowNs).tracks;
    var hit := Hit(w.s, f, nowNs);
    var i :| 0 <= i < |after.list| && after.list[i] == t;
    hide Ingest, Found, Hit, FoundFrom, Marked, CountTrue, AcceptedPoints;
    if t.id in hit {
      var k :| 0 <= k < |hit| && hit[k] == t.id;
      PointPlaced(w, f, nowNs, pointed, after, t, k);
    } else {
      StoodThere(w, f, nowNs, found, pointed, after, hit, i);
    }
  }

  predicate SamePlace(before: Track, after: Track) {
    && after.forward == before.forward && after.lateral == before.lateral && after.height == before.height
    && after.uncertainty == before.uncertainty && after.confidence == before.confidence && after.receivedNs == before.receivedNs
  }

  lemma PointPlaced(w: World, f: Frame, nowNs: int, pointed: Tracks, after: Tracks, t: Track, k: nat)
    requires pointed == UpsertAll(Found(w.s, f, nowNs), AcceptedPoints(f.points, f.status), FromPoint, nowNs)
    requires IdsOk(after) && t in after.list && (after == pointed || AfterCells(pointed, after))
    requires k < |Hit(w.s, f, nowNs)| && Hit(w.s, f, nowNs)[k] == t.id
    ensures |Hit(w.s, f, nowNs)| == |AcceptedPoints(f.points, f.status)|
    ensures StandsAt(t, AcceptedPoints(f.points, f.status)[k], nowNs)
  {
    var points := AcceptedPoints(f.points, f.status);
    assert |Hit(w.s, f, nowNs)| == |points|;
    PointsPlace(Found(w.s, f, nowNs), points, nowNs, k);
    hide UpsertAll, Found, AcceptedPoints, TargetsOf;
    assert Placed(pointed, t.id, points[k], nowNs);
    var j :| 0 <= j < |pointed.list| && pointed.list[j].id == t.id && StandsAt(pointed.list[j], points[k], nowNs);
    var i :| 0 <= i < |after.list| && after.list[i] == t;
    assert after.list[j].id == t.id;
    assert i == j;
  }

  lemma NewTrackIs(found: Tracks, pointed: Tracks, after: Tracks, hit: seq<nat>, i: nat)
    requires AfterPoints(found, pointed, hit) && (after == pointed || AfterCells(pointed, after))
    requires |found.list| <= i < |after.list|
    ensures after.list[i].id in hit || after.list[i].source.FromHeatmap?
  {
    if i < |pointed.list| {
      assert NewByPoint(pointed.list[i]);
    }
  }

  lemma StoodThere(w: World, f: Frame, nowNs: int, found: Tracks, pointed: Tracks, after: Tracks, hit: seq<nat>, i: nat)
    requires AfterPoints(found, pointed, hit) && (after == pointed || AfterCells(pointed, after))
    requires forall j | 0 <= j < |found.list| :: FoundFrom(w, f, nowNs, found.list[j])
    requires i < |after.list| && after.list[i].source.FromPoint? && after.list[i].id !in hit
    ensures exists t0 | t0 in w.s.tracks.list :: t0.id == after.list[i].id && t0.source.FromPoint? && SamePlace(t0, after.list[i])
  {
    hide Marked, CountTrue, TrackOk, LastThree, IdsOk;
    if i >= |found.list| {
      NewTrackIs(found, pointed, after, hit, i);
      assert false;
    } else {
      assert PointsDid(found.list[i], pointed.list[i], found.list[i].id in hit);
      assert FoundFrom(w, f, nowNs, found.list[i]);
      var t0 :| t0 in w.s.tracks.list && Alive(t0, nowNs) && TrackOk(t0, w.windows) && found.list[i] == Aged(t0, Windows(f));
      assert SamePlace(t0, after.list[i]);
    }
  }

  // --- Runs ---------------------------------------------------------------------------------------

  /** The `k`-th step is a frame, and its `j`-th accepted point went to track `id`. */
  ghost predicate HitAt(status: Status, run: seq<Label>, k: int, j: int, id: nat) {
    0 <= k < |run| && run[k].IngestFrame? &&
    var hit := Hit(Reached(status, run[..k]).s, run[k].f, run[k].nowNs);
    0 <= j < |hit| && j < |AcceptedPoints(run[k].f.points, run[k].f.status)| && hit[j] == id
  }

  /** No frame from the `k`-th step on sends a point to track `id`. */
  ghost predicate NotHitFrom(status: Status, run: seq<Label>, k: int, id: nat) {
    forall m, j | k <= m < |run| :: !HitAt(status, run, m, j, id)
  }

  /** The track stands where its last point, the `j`-th of the `k`-th step, was seen. */
  ghost predicate StandsAtLast(status: Status, run: seq<Label>, k: int, j: int, t: Track) {
    && HitAt(status, run, k, j, t.id) && NotHitFrom(status, run, k + 1, t.id)
    && var s := AcceptedPoints(run[k].f.points, run[k].f.status)[j];
       && t.forward == s.forward && t.lateral == s.lateral && t.uncertainty == s.uncertainty && t.confidence == s.confidence
       && (s.height.Some? ==> t.height == s.height) && t.receivedNs == run[k].nowNs
  }

  lemma FrontHits(status: Status, run: seq<Label>, k: int, j: int, id: nat)
    requires run != [] && k < |run| - 1
    ensures HitAt(status, run[..|run| - 1], k, j, id) <==> HitAt(status, run, k, j, id)
  {
    hide Reached, Hit, AcceptedPoints;
    var front := run[..|run| - 1];
    if 0 <= k {
      assert front[..k] == run[..k] && front[k] == run[k];
    }
  }

  lemma StillStands(status: Status, run: seq<Label>, k: int, j: int, t0: Track, t: Track)
    requires run != [] && StandsAtLast(status, run[..|run| - 1], k, j, t0)
    requires t.id == t0.id && SamePlace(t0, t)
    requires NotHitFrom(status, run, |run| - 1, t.id)
    ensures StandsAtLast(status, run, k, j, t)
  {
    FrontHits(status, run, k, j, t.id);
    hide HitAt, AcceptedPoints;
    assert run[..|run| - 1][k] == run[k] && k < |run| - 1 by { HitInside(status, run[..|run| - 1], k, j, t.id); }
    forall m, n | k + 1 <= m < |run| ensures !HitAt(status, run, m, n, t.id) {
      if m < |run| - 1 {
        FrontHits(status, run, m, n, t.id);
      }
    }
  }

  lemma HitInside(status: Status, run: seq<Label>, k: int, j: int, id: nat)
    requires HitAt(status, run, k, j, id)
    ensures 0 <= k < |run|
  {
  }

  /**
   In every run each point track stands where the last point that hit it was
   seen, with that point's time, whatever frames, cells and snapshots came after.
   */
  lemma {:induction false} StandsAtLastHit(status: Status, run: seq<Label>, t: Track) returns (k: int, j: int)
    requires t in Reached(status, run).s.tracks.list && t.source.FromPoint?
    ensures StandsAtLast(status, run, k, j, t)
  {
    hide HitAt, NotHitFrom, StandsAtLast, Step;
    if run == [] {
      NoneAtStart(status);
      assert false;
    } else {
      var front, last := run[..|run| - 1], run[|run| - 1];
      LastReached(status, run);
      ReachedInv(status, front);
      hide Reached;
      var w := Reached(status, front);
      if last.IngestFrame? && t.id in Hit(w.s, last.f, last.nowNs) {
        k := |run| - 1;
        j := LandsNow(status, run, t);
      } else {
        var t0 := Stood(w, last, t);
        k, j := StandsAtLastHit(status, front, t0);
        NoneNow(status, run, t.id);
        StillStands(status, run, k, j, t0, t);
      }
    }
  }

  lemma TracksMeanTrust(s: State, f: Frame, nowNs: int)
    ensures Ingest(s, f, nowNs).tracks.list != [] ==> Trusted(f.status)
  {
    hide UpsertAll, AcceptedPoints, AcceptedCells, Found, Trusted;
  }

  lemma NoneAtStart(status: Status)
    ensures Reached(status, []).s.tracks.list == []
  {
  }

  lemma LandsNow(status: Status, run: seq<Label>, t: Track) returns (j: int)
    requires run != [] && run[|run| - 1].IngestFrame?
    requires var w, last := Reached(status, run[..|run| - 1]), run[|run| - 1];
      Inv(w) && t.id in Hit(w.s, last.f, last.nowNs) && t in Step(w, last).s.tracks.list && t.source.FromPoint?
    ensures StandsAtLast(status, run, |run| - 1, j, t)
  {
    hide Reached, Inv, Hit, AcceptedPoints, Ingest;
    var w, last := Reached(status, run[..|run| - 1]), run[|run| - 1];
    TracksMeanTrust(w.s, last.f, last.nowNs);
    PointTrackAfter(w, last.f, last.nowNs, t);
    j :| 0 <= j < |Hit(w.s, last.f, last.nowNs)| && Hit(w.s, last.f, last.nowNs)[j] == t.id
      && |Hit(w.s, last.f, last.nowNs)| == |AcceptedPoints(last.f.points, last.f.status)|
      && StandsAt(t, AcceptedPoints(last.f.points, last.f.status)[j], last.nowNs);
    assert HitAt(status, run, |run| - 1, j, t.id);
  }

  /** A point track the step did not send a point to was there before, in the same place. */
  lemma Stood(w: World, l: Label, t: Track) returns (t0: Track)
    requires Inv(w) && t in Step(w, l).s.tracks.list && t.source.FromPoint?
    requires l.IngestFrame? ==> t.id !in Hit(w.s, l.f, l.nowNs)
    ensures t0 in w.s.tracks.list && t0.id == t.id && t0.source.FromPoint? && SamePlace(t0, t)
  {
    hide Evaluate, FreshPoints, UpsertAll, Inv, Found, Hit;
    match l
    case IngestFrame(f, nowNs) =>
      TracksMeanTrust(w.s, f, nowNs);
      PointTrackAfter(w, f, nowNs, t);
      hide Ingest;
      t0 :| t0 in w.s.tracks.list && t0.id == t.id && t0.source.FromPoint? && SamePlace(t0, t);
    case TakeSnapshot(feed, nowNs) =>
      t0 := t;
      ExpiredAre(w.s.tracks.list, nowNs);
      ExpiredAre([], nowNs);
    case ResetScene =>
      assert false;
  }

  lemma NoneNow(status: Status, run: seq<Label>, id: nat)
    requires run != []
    requires var w, last := Reached(status, run[..|run| - 1]), run[|run| - 1];
      last.IngestFrame? ==> id !in Hit(w.s, last.f, last.nowNs)
    ensures NotHitFrom(status, run, |run| - 1, id)
  {
    hide Reached, Hit, AcceptedPoints;
  }

  // --- What is thrown away ----------------------------------------------------------------------------

  /** No track of before is left, and no danger is latched; tracks there are have been seen in this frame alone. */
  predicate Fresh(before: State, after: State, nowNs: int) {
    after.danger == None && forall t | t in after.tracks.list :: |t.hits| == 1 && t.receivedNs == nowNs
  }

  /**
   A frame of another producer, a duplicate or out-of-order one, and one that
   can not be trusted throw all evidence away; a frame that is none of these
   keeps the latch, and a frame that can not be trusted leaves no track.
   */
  lemma ClearsMeans(w: World, f: Frame, nowNs: int)
    requires Inv(w)
    ensures var cleared := (w.s.producer.Some? && w.s.producer != Some(f.producer)) || f.transition.Duplicate?
                           || f.transition.ResetOrOutOfOrder? || !(f.status.CalibrationOk? || f.status.Synthetic?);
      var s' := Ingest(w.s, f, nowNs);
      && (cleared ==> Fresh(w.s, s', nowNs))
      && (!cleared ==> s'.danger == w.s.danger)
      && (!(f.status.CalibrationOk? || f.status.Synthetic?) ==> s'.tracks.list == [])
      && s'.producer == Some(f.producer) && s'.status == f.status
  {
    hide UpsertAll, AcceptedPoints, AcceptedCells, TargetsOf;
    if Clears(w.s, f) && Trusted(f.status) {
      var pointed := IngestEffect(w, f, nowNs);
      var found, after := Found(w.s, f, nowNs), Ingest(w.s, f, nowNs).tracks;
      assert found.list == [];
      PointsSeenNow(found, AcceptedPoints(f.points, f.status), FromPoint, nowNs);
      PointsSeenNow(pointed, AcceptedCells(f.cells), FromHeatmap, nowNs);
      hide IdsOk, PointsDid;
      forall t | t in after.list ensures |t.hits| == 1 && t.receivedNs == nowNs {
        var i :| 0 <= i < |after.list| && after.list[i] == t;
        if i < |pointed.list| {
          assert NewByPoint(pointed.list[i]);
        }
      }
    }
  }

  lemma {:induction false} PointsSeenNow(ts: Tracks, ss: seq<Sighting>, source: Source, nowNs: int)
    requires forall t | t in ts.list :: t.receivedNs == nowNs
    ensures forall t | t in UpsertAll(ts, ss, source, nowNs).list :: t.receivedNs == nowNs
  {
    if ss != [] {
      var front := UpsertAll(ts, ss[..|ss| - 1], source, nowNs);
      PointsSeenNow(ts, ss[..|ss| - 1], source, nowNs);
      hide UpsertAll, Match;
    }
  }

  /**
   A snapshot on a faulty feed leaves no track, no latch and no producer; any
   other keeps exactly the tracks seen within the last 0.3 s, as they are.
   */
  lemma SnapshotMeans(s: State, feed: Feed, nowNs: int)
    ensures var s' := Snapshot(s, feed, nowNs).0;
      && (feed.Waiting? || feed.StaleFeed? || feed.FaultFeed? || feed.ReplayEnd? || feed.ReplayLoopRestart? ==>
            s'.tracks == NO_TRACKS && s'.danger == None && s'.producer == None)
      && (feed.Live? || feed.OtherFeed? ==>
            && s'.producer == s.producer && s'.tracks.nextId == s.tracks.nextId
            && forall t :: t in s'.tracks.list <==> t in s.tracks.list && nowNs - t.receivedNs < 300_000_000)
      && s'.status == s.status
  {
    hide FreshPoints, ById, EnteringOf, ConfirmedOf, Closest;
    ExpiredAre(s.tracks.list, nowNs);
    ExpiredAre([], nowNs);
  }

  // --- The distance of a danger ---------------------------------------------------------------------------

  /** A live confirmed point track within 0.10 m. */
  predicate Enters(t: Track, nowNs: int) {
    LivePoint(t, nowNs) && t.confirmed && DistanceSquared(t) <= 0.10 * 0.10
  }

  /**
   The distance a danger reports is that of the latched track while it holds,
   and else that of a confirmed one inside the entry distance, which is latched.
   */
  lemma DangerDistance(w: World, feed: Feed, nowNs: int) returns (t: Track)
    requires Inv(w) && Snapshot(w.s, feed, nowNs).1.Danger?
    ensures t in w.s.tracks.list && LivePoint(t, nowNs)
    ensures var (s', h) := Snapshot(w.s, feed, nowNs);
      && s'.danger == Some(t.id) && h.nearestSquared == t.forward * t.forward + t.lateral * t.lateral
      && (LatchHolds(w.s, nowNs) ==> w.s.danger == s'.danger)
    ensures !LatchHolds(w.s, nowNs) ==>
      Enters(t, nowNs) && forall u | u in w.s.tracks.list && Enters(u, nowNs) :: DistanceSquared(t) <= DistanceSquared(u)
  {
    assert !Faulty(feed) && Trusted(w.s.status);
    var recent := FreshPoints(Expired(w.s.tracks.list, nowNs), nowNs);
    var (h, d) := Evaluate(w.s.danger, recent, w.s.status, feed);
    assert h == Snapshot(w.s, feed, nowNs).1 && d == Snapshot(w.s, feed, nowNs).0.danger;
    hide Snapshot, FreshPoints, Expired, Inv, Evaluate, LatchHolds, Enters, Entering, Holds, LivePoint;
    RecentUnique(w, nowNs);
    RecentMeans(w.s, recent, nowNs);
    t := DangerOf(w.s.danger, recent, w.s.status, feed);
  }

  /** The live point tracks, and what holds and enters among them. */
  lemma RecentMeans(s: State, recent: seq<Track>, nowNs: int)
    requires recent == FreshPoints(Expired(s.tracks.list, nowNs), nowNs)
    ensures forall t | t in recent :: t in s.tracks.list && LivePoint(t, nowNs)
    ensures forall t :: t in recent && Entering(t) <==> t in s.tracks.list && Enters(t, nowNs)
    ensures LatchHolds(s, nowNs) <==> Holds(s.danger, recent)
  {
    hide FreshPoints, Expired, DistanceSquared, LivePoint;
    RecentAre(s.tracks.list, nowNs);
  }

  ghost predicate Holds(danger: Option<nat>, recent: seq<Track>) {
    danger.Some? && exists t | t in recent :: t.id == danger.value && DistanceSquared(t) < 0.13 * 0.13
  }

  lemma DangerOf(danger: Option<nat>, recent: seq<Track>, status: Status, feed: Feed) returns (t: Track)
    requires !Faulty(feed) && Trusted(status) && Evaluate(danger, recent, status, feed).0.Danger?
    requires forall t, u | t in recent && u in recent && t.id == u.id :: t == u
    ensures var (h, d) := Evaluate(danger, recent, status, feed);
      && t in recent && Some(t.id) == d && h.nearestSquared == DistanceSquared(t)
      && (Holds(danger, recent) ==> danger == d)
      && (!Holds(danger, recent) ==> Entering(t) && forall u | u in recent && Entering(u) :: DistanceSquared(t) <= DistanceSquared(u))
  {
    hide DistanceSquared, Entering;
    EnteringAre(recent);
    if Holds(danger, recent) {
      t := ById(recent, danger.value).value;
    } else {
      t := Closest(EnteringOf(recent));
      assert t in EnteringOf(recent);
    }
  }
}
