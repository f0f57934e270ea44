/** What tracks and the hazard level mean over whole runs of frames and snapshots. */
module RadarSceneRuns {
  import opened Wrappers
  import opened RadarScene

  // --- Identity of tracks -------------------------------------------------------------

  /** Numbers are distinct and below the next one to be given. */
  predicate IdsOk(ts: Tracks) {
    && (forall i | 0 <= i < |ts.list| :: ts.list[i].id < ts.nextId)
    && (forall i, j | 0 <= i < j < |ts.list| :: ts.list[i].id != ts.list[j].id)
  }

  predicate Unclaimed(ts: Tracks) {
    forall i | 0 <= i < |ts.list| :: !ts.list[i].updatedByPoint
  }

  /** The tracks the sightings go to, in order. */
  function TargetsOf(ts: Tracks, ss: seq<Sighting>, source: Source, nowNs: int): (r: seq<nat>)
    ensures |r| == |ss|
  {
    if ss == [] then []
    else
      var front := ss[..|ss| - 1];
      TargetsOf(ts, front, source, nowNs) + [Target(UpsertAll(ts, front, source, nowNs), ss[|ss| - 1], source)]
  }

  /** How points change one track. */
  predicate PointsDid(before: Track, after: Track, hit: bool) {
    && after.id == before.id
    && after.updatedByPoint == hit
    && (if hit then after.hits == Marked(before.hits) && after.confirmed == (CountTrue(Marked(before.hits)) >= 2) && after.source.FromPoint?
        else after == before)
  }

  predicate NewByPoint(t: Track) {
    t.hits == [true] && !t.confirmed && t.source.FromPoint? && t.updatedByPoint
  }

  /** The tracks after a frame's points: old ones in place, changed exactly where hit; then the new ones. */
  ghost predicate AfterPoints(ts: Tracks, r: Tracks, targets: seq<nat>) {
    && IdsOk(r) && ts.nextId <= r.nextId && |ts.list| <= |r.list|
    && (forall i | 0 <= i < |ts.list| :: PointsDid(ts.list[i], r.list[i], ts.list[i].id in targets))
    && (forall i | |ts.list| <= i < |r.list| :: NewByPoint(r.list[i]) && r.list[i].id >= ts.nextId && r.list[i].id in targets)
    && (forall id | id in targets :: id < r.nextId)
  }

  lemma {:induction false} PointsEffect(ts: Tracks, ss: seq<Sighting>, nowNs: int)
    requires IdsOk(ts) && Unclaimed(ts)
    ensures AfterPoints(ts, UpsertAll(ts, ss, FromPoint, nowNs), TargetsOf(ts, ss, FromPoint, nowNs))
    ensures var targets := TargetsOf(ts, ss, FromPoint, nowNs);
      forall i, j | 0 <= i < j < |targets| :: targets[i] != targets[j]
  {
    if ss != [] {
      var front, last := ss[..|ss| - 1], ss[|ss| - 1];
      PointsEffect(ts, front, nowNs);
      var r, targets := UpsertAll(ts, front, FromPoint, nowNs), TargetsOf(ts, front, FromPoint, nowNs);
      hide UpsertAll, TargetsOf;
      OnePoint(ts, r, targets, last, nowNs);
    }
  }

  lemma OnePoint(ts: Tracks, r: Tracks, targets: seq<nat>, s: Sighting, nowNs: int)
    requires AfterPoints(ts, r, targets)
    ensures Target(r, s, FromPoint) !in targets
    ensures AfterPoints(ts, Upsert(r, s, FromPoint, nowNs), targets + [Target(r, s, FromPoint)])
  {
    hide NearestOf, CountTrue, GapSquared;
    var m, r' := Match(r.list, s, FromPoint), Upsert(r, s, FromPoint, nowNs);
    var more := targets + [Target(r, s, FromPoint)];
    if m.Some? {
      assert !r.list[m.value].updatedByPoint;
      forall i | 0 <= i < |ts.list| ensures PointsDid(ts.list[i], r'.list[i], ts.list[i].id in more) {
        assert PointsDid(ts.list[i], r.list[i], ts.list[i].id in targets);
      }
    } else {
      forall i | 0 <= i < |ts.list| ensures PointsDid(ts.list[i], r'.list[i], ts.list[i].id in more) {
        assert PointsDid(ts.list[i], r.list[i], ts.list[i].id in targets);
      }
    }
  }

  // --- Heatmap cells ----------------------------------------------------------------------

  /** Cells leave point tracks alone and change no track's hits. */
  ghost predicate AfterCells(ts: Tracks, r: Tracks) {
    && IdsOk(r) && ts.nextId <= r.nextId && |ts.list| <= |r.list|
    && (forall i | 0 <= i < |ts.list| ::
          && r.list[i].id == ts.list[i].id && r.list[i].hits == ts.list[i].hits
          && r.list[i].confirmed == ts.list[i].confirmed && r.list[i].source == ts.list[i].source
          && (ts.list[i].source.FromPoint? ==> r.list[i] == ts.list[i]))
    && (forall i | |ts.list| <= i < |r.list| ::
          r.list[i].id >= ts.nextId && r.list[i].hits == [false] && !r.list[i].confirmed && r.list[i].source.FromHeatmap?)
  }

  lemma {:induction false} CellsLeavePoints(ts: Tracks, ss: seq<Sighting>, nowNs: int)
    requires IdsOk(ts)
    ensures AfterCells(ts, UpsertAll(ts, ss, FromHeatmap, nowNs))
  {
    if ss != [] {
      var before := UpsertAll(ts, ss[..|ss| - 1], FromHeatmap, nowNs);
      assert UpsertAll(ts, ss, FromHeatmap, nowNs) == Upsert(before, ss[|ss| - 1], FromHeatmap, nowNs);
      CellsLeavePoints(ts, ss[..|ss| - 1], nowNs);
      hide *;
      OneCell(ts, before, ss[|ss| - 1], nowNs);
    }
  }

  lemma OneCell(ts: Tracks, r: Tracks, s: Sighting, nowNs: int)
    requires AfterCells(ts, r)
    ensures AfterCells(ts, Upsert(r, s, FromHeatmap, nowNs))
  {
    hide NearestOf, CountTrue, GapSquared;
    var m, r' := Match(r.list, s, FromHeatmap), Upsert(r, s, FromHeatmap, nowNs);
    if m.Some? {
      assert r.list[m.value].source.FromHeatmap?;
    } else {
      assert forall i | 0 <= i < |r.list| :: r'.list[i] == r.list[i];
    }
  }

  // --- Runs -----------------------------------------------------------------------------------

  datatype Label = IngestFrame(f: Frame, nowNs: int) | TakeSnapshot(feed: Feed, nowNs: int) | ResetScene

  /** The estimator, and for each track the frame windows since it appeared, hit or missed. */
  datatype World = World(s: State, windows: map<nat, seq<bool>>)

  function Hit(s: State, f: Frame, nowNs: int): seq<nat> {
    TargetsOf(Found(s, f, nowNs), AcceptedPoints(f.points, f.status), FromPoint, nowNs)
  }

  function IdSet(list: seq<Track>): set<nat> {
    set t | t in list :: t.id
  }

  /** The windows of a track after a frame: the lost frames missed, then hit or not. */
  function WindowsAfter(w: World, f: Frame, nowNs: int, id: nat): seq<bool> {
    var hit := id in Hit(w.s, f, nowNs);
    if id in IdSet(Found(w.s, f, nowNs).list) && id in w.windows then w.windows[id] + Misses(Windows(f) - 1) + [hit]
    else [hit]
  }

  ghost function Step(w: World, l: Label): World {
    match l
    case IngestFrame(f, nowNs) =>
      var s := Ingest(w.s, f, nowNs);
      World(s, map id | id in IdSet(s.tracks.list) :: WindowsAfter(w, f, nowNs, id))
    case TakeSnapshot(feed, nowNs) => World(Snapshot(w.s, feed, nowNs).0, w.windows)
    case ResetScene => World(Cleared(w.s).(producer := None), w.windows)
  }

  ghost function Reached(status: Status, run: seq<Label>): World {
    if run == [] then World(Began(status), map[]) else Step(Reached(status, run[..|run| - 1]), run[|run| - 1])
  }

  predicate TrackOk(t: Track, windows: map<nat, seq<bool>>) {
    && t.id in windows && windows[t.id] != [] && t.hits == LastThree(windows[t.id])
    && t.confirmed == (CountTrue(LastThree(windows[t.id])) >= 2)
  }

  ghost predicate Inv(w: World) {
    && IdsOk(w.s.tracks)
    && (forall i | 0 <= i < |w.s.tracks.list| :: TrackOk(w.s.tracks.list[i], w.windows))
    && (w.s.danger.Some? ==> w.s.danger.value < w.s.tracks.nextId)
  }

  // --- Expiry ------------------------------------------------------------------------------------

  lemma {:induction false} ExpiredAre(list: seq<Track>, nowNs: int)
    ensures forall t :: t in Expired(list, nowNs) <==> t in list && Alive(t, nowNs)
  {
    if list != [] {
      ExpiredAre(list[..|list| - 1], nowNs);
      assert list == list[..|list| - 1] + [list[|list| - 1]];
    }
  }

  predicate DistinctIds(list: seq<Track>) {
    forall i, j | 0 <= i < j < |list| :: list[i].id != list[j].id
  }

  lemma {:induction false} ExpiredDistinct(list: seq<Track>, nowNs: int)
    requires DistinctIds(list)
    ensures DistinctIds(Expired(list, nowNs))
  {
    if list != [] {
      var front, last := list[..|list| - 1], list[|list| - 1];
      ExpiredDistinct(front, nowNs);
      ExpiredAre(front, nowNs);
      forall t | t in Expired(front, nowNs) ensures t.id != last.id {
        var i :| 0 <= i < |front| && front[i] == t;
        assert list[i] == t;
      }
    }
  }

  lemma ExpiredOk(ts: Tracks, nowNs: int)
    requires IdsOk(ts)
    ensures IdsOk(ts.(list := Expired(ts.list, nowNs)))
    ensures forall t | t in Expired(ts.list, nowNs) :: t in ts.list && Alive(t, nowNs)
  {
    ExpiredDistinct(ts.list, nowNs);
    ExpiredAre(ts.list, nowNs);
    hide Expired;
    var list := Expired(ts.list, nowNs);
    forall i | 0 <= i < |list| ensures list[i].id < ts.nextId {
      assert list[i] in list;
    }
  }

  // --- One frame -----------------------------------------------------------------------------------

  /** A track a frame finds is one that was there, alive and in order, aged by the frame. */
  ghost predicate FoundFrom(w: World, f: Frame, nowNs: int, found: Track) {
    exists t | t in w.s.tracks.list :: Alive(t, nowNs) && TrackOk(t, w.windows) && found == Aged(t, Windows(f))
  }

  lemma FoundOk(w: World, f: Frame, nowNs: int)
    requires Inv(w)
    ensures var found := Found(w.s, f, nowNs);
      && IdsOk(found) && Unclaimed(found)
      && (Clears(w.s, f) ==> found.list == [])
      && forall i | 0 <= i < |found.list| :: FoundFrom(w, f, nowNs, found.list[i])
  {
    var ts := if Clears(w.s, f) then NO_TRACKS else w.s.tracks;
    ExpiredOk(ts, nowNs);
    hide CountTrue, LastThree, Clears;
    var found := Found(w.s, f, nowNs);
    forall i | 0 <= i < |found.list| ensures FoundFrom(w, f, nowNs, found.list[i]) {
      var t := Expired(ts.list, nowNs)[i];
      assert t in Expired(ts.list, nowNs);
      var j :| 0 <= j < |ts.list| && ts.list[j] == t;
      assert TrackOk(w.s.tracks.list[j], w.windows);
      assert found.list[i] == Aged(t, Windows(f));
    }
  }

  lemma WindowsSlide(old3: seq<bool>, k: nat, hit: bool)
    requires k >= 1 && old3 != []
    ensures var kept := LastThree(LastThree(old3) + Misses(k));
      && kept != []
      && LastThree(old3 + Misses(k - 1) + [hit]) == if hit then Marked(kept) else kept
  {
    var kept := LastThree(LastThree(old3) + Misses(k));
    var all := old3 + Misses(k - 1) + [hit];
    assert |all| == |old3| + k;
    assert forall i | 0 <= i < 3 && i < |all| && |all| >= 3 :: LastThree(all)[i] == all[|all| - 3 + i];
  }

  lemma IngestKeepsInv(w: World, f: Frame, nowNs: int)
    requires Inv(w)
    ensures Inv(Step(w, IngestFrame(f, nowNs)))
  {
    if Trusted(f.status) {
      var found, after := Found(w.s, f, nowNs), Ingest(w.s, f, nowNs).tracks;
      var pointed := IngestEffect(w, f, nowNs);
      var w' := Step(w, IngestFrame(f, nowNs));
      assert w'.s.tracks == after;
      assert w'.s.danger.Some? ==> w'.s.danger == w.s.danger && found.nextId == w.s.tracks.nextId;
      forall i | 0 <= i < |after.list| ensures TrackOk(after.list[i], w'.windows) {
        assert after.list[i] in after.list;
        assert after.list[i].id in IdSet(after.list);
        hide *;
        TrackAfterFrame(w, f, nowNs, found, pointed, after, i);
        WindowsOf(w, f, nowNs, after.list[i]);
      }
      hide *;
      Conclude(w, w', found);
    }
  }

  lemma WindowsOf(w: World, f: Frame, nowNs: int, t: Track)
    requires t in Ingest(w.s, f, nowNs).tracks.list
    requires var windows := WindowsAfter(w, f, nowNs, t.id);
      && windows != [] && t.hits == LastThree(windows) && t.confirmed == (CountTrue(LastThree(windows)) >= 2)
    ensures TrackOk(t, Step(w, IngestFrame(f, nowNs)).windows)
  {
    hide Ingest, WindowsAfter, CountTrue, LastThree;
    assert t.id in IdSet(Ingest(w.s, f, nowNs).tracks.list);
  }

  /** The two passes of a trusted frame. */
  lemma IngestEffect(w: World, f: Frame, nowNs: int) returns (pointed: Tracks)
    requires Inv(w) && Trusted(f.status)
    ensures var found, after := Found(w.s, f, nowNs), Ingest(w.s, f, nowNs).tracks;
      && pointed == UpsertAll(found, AcceptedPoints(f.points, f.status), FromPoint, nowNs)
      && IdsOk(found) && AfterPoints(found, pointed, Hit(w.s, f, nowNs))
      && (after == pointed || AfterCells(pointed, after)) && IdsOk(after)
      && found.nextId <= after.nextId
      && (Clears(w.s, f) ==> found.list == [])
      && forall i | 0 <= i < |found.list| :: FoundFrom(w, f, nowNs, found.list[i])
  {
    var found, points := Found(w.s, f, nowNs), AcceptedPoints(f.points, f.status);
    pointed := UpsertAll(found, points, FromPoint, nowNs);
    FoundOk(w, f, nowNs);
    PointsEffect(found, points, nowNs);
    CellsLeavePoints(pointed, AcceptedCells(f.cells), nowNs);
    hide UpsertAll, TargetsOf, AcceptedPoints, AcceptedCells, Found, FoundFrom, PointsDid;
  }

  lemma Conclude(w: World, w': World, found: Tracks)
    requires Inv(w) && IdsOk(w'.s.tracks) && found.nextId <= w'.s.tracks.nextId
    requires forall i | 0 <= i < |w'.s.tracks.list| :: TrackOk(w'.s.tracks.list[i], w'.windows)
    requires w'.s.danger.Some? ==> w'.s.danger == w.s.danger && found.nextId == w.s.tracks.nextId
    ensures Inv(w')
  {
  }

  /** One track after a frame: its last three windows, whatever its origin. */
  lemma TrackAfterFrame(w: World, f: Frame, nowNs: int, found: Tracks, pointed: Tracks, after: Tracks, i: nat)
    requires Inv(w) && found == Found(w.s, f, nowNs) && IdsOk(found)
    requires forall j | 0 <= j < |found.list| :: FoundFrom(w, f, nowNs, found.list[j])
    requires AfterPoints(found, pointed, Hit(w.s, f, nowNs))
    requires after == pointed || AfterCells(pointed, after)
    requires i < |after.list|
    ensures var t, windows := after.list[i], WindowsAfter(w, f, nowNs, after.list[i].id);
      && windows != [] && t.hits == LastThree(windows) && t.confirmed == (CountTrue(LastThree(windows)) >= 2)
  {
    hide TargetsOf, Found, Hit, CountTrue, LastThree;
    assert CountTrue([true]) == 1 && CountTrue([false]) == 0 by { SingleCounts(); }
    assert LastThree([true]) == [true] && LastThree([false]) == [false] by { SingleCounts(); }
    var id := after.list[i].id;
    if i < |found.list| {
      assert found.list[i] in found.list && found.list[i].id == id;
      assert PointsDid(found.list[i], pointed.list[i], id in Hit(w.s, f, nowNs));
      assert FoundFrom(w, f, nowNs, found.list[i]);
      var t :| t in w.s.tracks.list && Alive(t, nowNs) && TrackOk(t, w.windows) && found.list[i] == Aged(t, Windows(f));
      WindowsSlide(w.windows[id], Windows(f), id in Hit(w.s, f, nowNs));
    } else {
      assert id !in IdSet(found.list);
      if i < |pointed.list| {
        assert NewByPoint(pointed.list[i]);
      } else {
        assert id !in Hit(w.s, f, nowNs);
      }
    }
  }

  lemma SingleCounts()
    ensures CountTrue([true]) == 1 && CountTrue([false]) == 0
    ensures LastThree([true]) == [true] && LastThree([false]) == [false]
  {
    assert [true][..0] == [] && [false][..0] == [];
  }

  lemma SnapshotKeepsInv(w: World, feed: Feed, nowNs: int)
    requires Inv(w)
    ensures Inv(Step(w, TakeSnapshot(feed, nowNs)))
  {
    var s1 := if Faulty(feed) then Cleared(w.s).(producer := None) else w.s;
    ExpiredOk(s1.tracks, nowNs);
    var list := Expired(s1.tracks.list, nowNs);
    var recent := FreshPoints(list, nowNs);
    DangerIsATrack(s1.danger, recent, s1.status, feed);
    FreshAre(list, nowNs);
    var w' := Step(w, TakeSnapshot(feed, nowNs));
    assert w'.s.tracks == s1.tracks.(list := list) && w'.s.danger == Evaluate(s1.danger, recent, s1.status, feed).1;
    hide Evaluate, FreshPoints, Expired, Snapshot, CountTrue, LastThree;
    forall i | 0 <= i < |list| ensures TrackOk(list[i], w.windows) && list[i].id < s1.tracks.nextId {
      assert list[i] in list;
      var j :| 0 <= j < |s1.tracks.list| && s1.tracks.list[j] == list[i];
      assert TrackOk(w.s.tracks.list[j], w.windows);
    }
    if w'.s.danger.Some? {
      var t :| t in recent && t.id == w'.s.danger.value;
      var i :| 0 <= i < |list| && list[i] == t;
    }
  }

  lemma {:induction false} FreshAre(list: seq<Track>, nowNs: int)
    ensures forall t :: t in FreshPoints(list, nowNs) <==> t in list && FreshPoint(t, nowNs)
  {
    hide FreshPoint;
    if list != [] {
      FreshAre(list[..|list| - 1], nowNs);
      assert list == list[..|list| - 1] + [list[|list| - 1]];
    }
  }

  lemma {:induction false} EnteringAre(list: seq<Track>)
    ensures forall t :: t in EnteringOf(list) <==> t in list && Entering(t)
    ensures forall t :: t in ConfirmedOf(list) <==> t in list && t.confirmed
  {
    hide Entering;
    if list != [] {
      EnteringAre(list[..|list| - 1]);
      assert list == list[..|list| - 1] + [list[|list| - 1]];
    }
  }

  /** The new latch is the old one or the number of a track at hand. */
  lemma DangerIsATrack(danger: Option<nat>, recent: seq<Track>, status: Status, feed: Feed)
    ensures var d := Evaluate(danger, recent, status, feed).1;
      d.Some? ==> exists t | t in recent :: t.id == d.value
  {
    hide DistanceSquared;
    EnteringAre(recent);
  }

  lemma {:induction false} ReachedInv(status: Status, run: seq<Label>)
    ensures Inv(Reached(status, run))
  {
    if run != [] {
      var w := Reached(status, run[..|run| - 1]);
      ReachedInv(status, run[..|run| - 1]);
      match run[|run| - 1]
      case IngestFrame(f, nowNs) => IngestKeepsInv(w, f, nowNs);
      case TakeSnapshot(feed, nowNs) => SnapshotKeepsInv(w, feed, nowNs);
      case ResetScene =>
    }
  }

  // --- Main results ------------------------------------------------------------------------------------

  /**
   In every run a track is confirmed if and only if a point hit it in at least
   two of its last three frame windows, lost frames counted, and no two tracks
   share a number.
   */
  lemma ConfirmedIffTwoOfThree(status: Status, run: seq<Label>)
    ensures var w := Reached(status, run);
      && DistinctIds(w.s.tracks.list)
      && forall t | t in w.s.tracks.list ::
           t.id in w.windows && (t.confirmed <==> CountTrue(LastThree(w.windows[t.id])) >= 2)
  {
    ReachedInv(status, run);
    hide CountTrue, LastThree, Reached;
    var w := Reached(status, run);
    forall t | t in w.s.tracks.list
      ensures t.id in w.windows && (t.confirmed <==> CountTrue(LastThree(w.windows[t.id])) >= 2)
    {
      var i :| 0 <= i < |w.s.tracks.list| && w.s.tracks.list[i] == t;
      assert TrackOk(w.s.tracks.list[i], w.windows);
    }
  }

  /** In every run, the points one frame accepts go to different tracks. */
  lemma PointsGoToDistinctTracks(status: Status, run: seq<Label>, f: Frame, nowNs: int)
    ensures var targets := Hit(Reached(status, run).s, f, nowNs);
      && |targets| == |AcceptedPoints(f.points, f.status)|
      && forall i, j | 0 <= i < j < |targets| :: targets[i] != targets[j]
  {
    ReachedInv(status, run);
    var w := Reached(status, run);
    FoundOk(w, f, nowNs);
    PointsEffect(Found(w.s, f, nowNs), AcceptedPoints(f.points, f.status), nowNs);
  }

  /** The step throws no evidence away. */
  predicate KeepsEvidence(w: World, l: Label) {
    (l.IngestFrame? && !Clears(w.s, l.f)) || (l.TakeSnapshot? && !Faulty(l.feed))
  }

  /** No step of the run from the `n`-th on throws evidence away. */
  ghost predicate KeepsEvidenceFrom(status: Status, run: seq<Label>, n: nat) {
    forall k | n <= k < |run| :: KeepsEvidence(Reached(status, run[..k]), run[k])
  }

  predicate HasNumber(ts: Tracks, id: nat) {
    exists t | t in ts.list :: t.id == id
  }

  /** Numbers only grow, and those below the next one to be given are not given to new tracks. */
  ghost predicate NumbersGrow(before: Tracks, after: Tracks) {
    && after.nextId >= before.nextId
    && forall id: nat | id < before.nextId && HasNumber(after, id) :: HasNumber(before, id)
  }

  /**
   As long as no evidence is cleared, a number is given once: between any two
   moments of the run numbers only grow, and a track with a number given before
   the first was already there; a track that is gone never comes back.
   */
  lemma {:induction false} NumbersAreNotReused(status: Status, run: seq<Label>, n: nat)
    requires n <= |run| && KeepsEvidenceFrom(status, run, n)
    ensures NumbersGrow(Reached(status, run[..n]).s.tracks, Reached(status, run).s.tracks)
  {
    if n == |run| {
      assert run[..n] == run;
    } else {
      var front := run[..|run| - 1];
      FrontKeepsEvidence(status, run, n);
      NumbersAreNotReused(status, front, n);
      assert front[..n] == run[..n];
      ReachedInv(status, front);
      StepNumbers(Reached(status, front), run[|run| - 1]);
      hide NumbersGrow, Step, Inv;
      GrowFurther(Reached(status, run[..n]).s.tracks, Reached(status, front).s.tracks, Reached(status, run).s.tracks);
    }
  }

  lemma FrontKeepsEvidence(status: Status, run: seq<Label>, n: nat)
    requires n < |run| && KeepsEvidenceFrom(status, run, n)
    ensures KeepsEvidenceFrom(status, run[..|run| - 1], n) && KeepsEvidence(Reached(status, run[..|run| - 1]), run[|run| - 1])
  {
    hide KeepsEvidence, Reached;
    var front := run[..|run| - 1];
    forall k | n <= k < |front| ensures KeepsEvidence(Reached(status, front[..k]), front[k]) {
      assert front[..k] == run[..k];
    }
  }

  lemma GrowFurther(a: Tracks, b: Tracks, c: Tracks)
    requires NumbersGrow(a, b) && NumbersGrow(b, c)
    ensures NumbersGrow(a, c)
  {
    hide HasNumber;
  }

  lemma StepNumbers(w: World, l: Label)
    requires Inv(w) && KeepsEvidence(w, l)
    ensures NumbersGrow(w.s.tracks, Step(w, l).s.tracks)
  {
    OldNumbersOnly(w, l);
    hide Step, Inv;
  }

  lemma OldNumbersOnly(w: World, l: Label)
    requires Inv(w) && KeepsEvidence(w, l)
    ensures var s' := Step(w, l).s;
      && s'.tracks.nextId >= w.s.tracks.nextId
      && forall t' | t' in s'.tracks.list && t'.id < w.s.tracks.nextId :: exists t | t in w.s.tracks.list :: t.id == t'.id
  {
    hide Evaluate, FreshPoints, CountTrue, LastThree, TargetsOf, UpsertAll;
    if l.TakeSnapshot? {
      ExpiredAre(w.s.tracks.list, l.nowNs);
    } else {
      var found, s' := Found(w.s, l.f, l.nowNs), Step(w, l).s;
      FrameEffect(w, l.f, l.nowNs);
      hide Found, Ingest;
      forall t' | t' in s'.tracks.list && t'.id < w.s.tracks.nextId ensures exists t | t in w.s.tracks.list :: t.id == t'.id {
        var i :| 0 <= i < |s'.tracks.list| && s'.tracks.list[i] == t';
        assert FoundFrom(w, l.f, l.nowNs, found.list[i]);
        var t :| t in w.s.tracks.list && Alive(t, l.nowNs) && TrackOk(t, w.windows) && found.list[i] == Aged(t, Windows(l.f));
      }
    }
  }

  /** Where the tracks of a frame that clears nothing come from. */
  lemma FrameEffect(w: World, f: Frame, nowNs: int)
    requires Inv(w) && !Clears(w.s, f)
    ensures var found, after := Found(w.s, f, nowNs), Ingest(w.s, f, nowNs).tracks;
      && IdsOk(found) && IdsOk(after) && found.nextId == w.s.tracks.nextId <= after.nextId && |found.list| <= |after.list|
      && (forall i | 0 <= i < |found.list| ::
            && after.list[i].id == found.list[i].id
            && (found.list[i].source.FromPoint? ==> after.list[i].source.FromPoint?)
            && (found.list[i].source.FromPoint? && found.list[i].id !in Hit(w.s, f, nowNs) ==> after.list[i] == found.list[i]))
      && (forall i | |found.list| <= i < |after.list| :: after.list[i].id >= w.s.tracks.nextId)
      && (forall i | 0 <= i < |found.list| :: FoundFrom(w, f, nowNs, found.list[i]))
  {
    var found, after := Found(w.s, f, nowNs), Ingest(w.s, f, nowNs).tracks;
    var pointed := IngestEffect(w, f, nowNs);
    assert found.nextId == w.s.tracks.nextId;
    hide Ingest, Found, FoundFrom, Hit, Marked, CountTrue;
    forall i | 0 <= i < |found.list|
      ensures after.list[i].id == found.list[i].id
      ensures found.list[i].source.FromPoint? ==> after.list[i].source.FromPoint?
      ensures found.list[i].source.FromPoint? && found.list[i].id !in Hit(w.s, f, nowNs) ==> after.list[i] == found.list[i]
    {
      assert PointsDid(found.list[i], pointed.list[i], found.list[i].id in Hit(w.s, f, nowNs));
    }
  }

  // --- Hazard ----------------------------------------------------------------------------------------------

  /** A point track that has not expired. */
  predicate LivePoint(t: Track, nowNs: int) {
    nowNs - t.receivedNs < 300_000_000 && t.source.FromPoint?
  }

  /** The latched track is still a live point track inside the release distance. */
  ghost predicate LatchHolds(s: State, nowNs: int) {
    s.danger.Some? &&
    exists t | t in s.tracks.list :: t.id == s.danger.value && LivePoint(t, nowNs) && DistanceSquared(t) < 0.13 * 0.13
  }

  ghost predicate SomeoneEnters(s: State, nowNs: int) {
    exists t | t in s.tracks.list :: LivePoint(t, nowNs) && t.confirmed && DistanceSquared(t) <= 0.10 * 0.10
  }

  ghost predicate SomeoneConfirmed(s: State, nowNs: int) {
    exists t | t in s.tracks.list :: LivePoint(t, nowNs) && t.confirmed
  }

  /** The fresh point tracks of a snapshot are the live ones. */
  lemma RecentAre(list: seq<Track>, nowNs: int)
    ensures forall t :: t in FreshPoints(Expired(list, nowNs), nowNs) <==> t in list && LivePoint(t, nowNs)
  {
    ExpiredAre(list, nowNs);
    FreshAre(Expired(list, nowNs), nowNs);
    assert forall t: Track :: Alive(t, nowNs) ==> (FreshPoint(t, nowNs) <==> t.source.FromPoint?);
  }

  /** The level and the latch on the recent tracks, case by case. */
  lemma EvaluateCases(danger: Option<nat>, recent: seq<Track>, status: Status, feed: Feed)
    requires !Faulty(feed) && Trusted(status)
    requires forall t, u | t in recent && u in recent && t.id == u.id :: t == u
    ensures var (h, d) := Evaluate(danger, recent, status, feed);
      var holds := danger.Some? && exists t | t in recent :: t.id == danger.value && DistanceSquared(t) < Square(DANGER_EXIT);
      var enters := exists t | t in recent :: Entering(t);
      var confirmed := exists t | t in recent :: t.confirmed;
      && (h.Danger? <==> holds || enters)
      && (holds ==> d == danger && forall t | t in recent && t.id == danger.value :: h == Danger(DistanceSquared(t)))
      && (!holds && enters ==> d.Some? && exists t | t in recent :: t.id == d.value && Entering(t) && h == Danger(DistanceSquared(t)))
      && (h.Normal? <==> !holds && !enters && confirmed)
      && (h.Normal? ==> forall t | t in recent && t.confirmed :: h.nearestSquared <= DistanceSquared(t))
      && (!holds && !enters ==> d == None)
  {
    hide DistanceSquared, Entering;
    EnteringAre(recent);
    if EnteringOf(recent) != [] {
      assert Closest(EnteringOf(recent)) in EnteringOf(recent);
    }
    if EnteringOf(recent) == [] {
      assert forall t | t in recent :: !Entering(t);
    }
    if ConfirmedOf(recent) == [] {
      assert forall t | t in recent :: !t.confirmed;
    } else {
      assert ConfirmedOf(recent)[0] in ConfirmedOf(recent);
    }
  }

  lemma RecentUnique(w: World, nowNs: int)
    requires Inv(w)
    ensures var recent := FreshPoints(Expired(w.s.tracks.list, nowNs), nowNs);
      forall t, u | t in recent && u in recent && t.id == u.id :: t == u
  {
    RecentAre(w.s.tracks.list, nowNs);
    hide FreshPoints, Expired;
    forall t, u | t in w.s.tracks.list && u in w.s.tracks.list && t.id == u.id ensures t == u {
      var i :| 0 <= i < |w.s.tracks.list| && w.s.tracks.list[i] == t;
      var j :| 0 <= j < |w.s.tracks.list| && w.s.tracks.list[j] == u;
      assert i == j;
    }
  }

  /**
   What a snapshot of any reachable state reports: DANGER exactly when the
   latched track is still a live point track inside the release distance or a
   confirmed one is inside the entry distance; NORMAL exactly when some live
   point track is confirmed and none of these is inside.
   */
  lemma HazardMeans(status: Status, run: seq<Label>, feed: Feed, nowNs: int)
    ensures var s := Reached(status, run).s;
      var h := Snapshot(s, feed, nowNs).1;
      var usable := !Faulty(feed) && Trusted(s.status);
      && (h.Danger? <==> usable && (LatchHolds(s, nowNs) || SomeoneEnters(s, nowNs)))
      && (h.Normal? <==> usable && !LatchHolds(s, nowNs) && !SomeoneEnters(s, nowNs) && SomeoneConfirmed(s, nowNs))
      && (h.Normal? ==> h.nearestSquared > Square(DANGER_ENTER)
                        && forall t | t in s.tracks.list && LivePoint(t, nowNs) && t.confirmed :: DistanceSquared(t) > Square(DANGER_ENTER))
      && (h.SensorFault? <==> Faulty(feed))
  {
    ReachedInv(status, run);
    var w := Reached(status, run);
    hide Reached;
    if !Faulty(feed) && Trusted(w.s.status) {
      SnapshotCases(w, feed, nowNs);
    }
  }

  lemma SnapshotCases(w: World, feed: Feed, nowNs: int)
    requires Inv(w) && !Faulty(feed) && Trusted(w.s.status)
    ensures var h := Snapshot(w.s, feed, nowNs).1;
      && (h.Danger? <==> LatchHolds(w.s, nowNs) || SomeoneEnters(w.s, nowNs))
      && (h.Normal? <==> !LatchHolds(w.s, nowNs) && !SomeoneEnters(w.s, nowNs) && SomeoneConfirmed(w.s, nowNs))
      && (h.Normal? ==> h.nearestSquared > Square(DANGER_ENTER)
                        && forall t | t in w.s.tracks.list && LivePoint(t, nowNs) && t.confirmed :: DistanceSquared(t) > Square(DANGER_ENTER))
      && !h.SensorFault?
    ensures var s' := Snapshot(w.s, feed, nowNs).0;
      && (LatchHolds(w.s, nowNs) ==> s'.danger == w.s.danger)
      && (!LatchHolds(w.s, nowNs) && s'.danger.Some? ==> SomeoneEnters(w.s, nowNs))
  {
    var recent := FreshPoints(Expired(w.s.tracks.list, nowNs), nowNs);
    RecentAre(w.s.tracks.list, nowNs);
    RecentUnique(w, nowNs);
    EvaluateCases(w.s.danger, recent, w.s.status, feed);
    var (h, d) := Evaluate(w.s.danger, recent, w.s.status, feed);
    assert h == Snapshot(w.s, feed, nowNs).1 && d == Snapshot(w.s, feed, nowNs).0.danger;
    assert h.Normal? ==> exists t | t in recent :: t.confirmed && h.nearestSquared == DistanceSquared(t) by {
      NearestIsATrack(w.s.danger, recent, w.s.status, feed);
    }
    hide Evaluate, FreshPoints, Expired, Snapshot, DistanceSquared, Square, Inv;
  }

  lemma NearestIsATrack(danger: Option<nat>, recent: seq<Track>, status: Status, feed: Feed)
    ensures var h := Evaluate(danger, recent, status, feed).0;
      h.Normal? ==> exists t | t in recent :: t.confirmed && h.nearestSquared == DistanceSquared(t)
  {
    hide DistanceSquared, Entering;
    EnteringAre(recent);
  }

  /**
   A latched danger is released only by the latched track itself: it survives a
   snapshot exactly while evidence is trusted and that track is a live point
   track closer than the release distance.
   */
  lemma LatchReleasedIff(status: Status, run: seq<Label>, feed: Feed, nowNs: int)
    requires Reached(status, run).s.danger.Some?
    ensures var s := Reached(status, run).s;
      Snapshot(s, feed, nowNs).0.danger == s.danger <==> !Faulty(feed) && Trusted(s.status) && LatchHolds(s, nowNs)
  {
    ReachedInv(status, run);
    var w := Reached(status, run);
    hide Reached;
    if !Faulty(feed) && Trusted(w.s.status) && !LatchHolds(w.s, nowNs) {
      OnlyOthersEnter(w, feed, nowNs);
    } else if !Faulty(feed) && Trusted(w.s.status) {
      SnapshotCases(w, feed, nowNs);
    }
  }

  lemma OnlyOthersEnter(w: World, feed: Feed, nowNs: int)
    requires Inv(w) && w.s.danger.Some? && !Faulty(feed) && Trusted(w.s.status) && !LatchHolds(w.s, nowNs)
    ensures Snapshot(w.s, feed, nowNs).0.danger != w.s.danger
  {
    var recent := FreshPoints(Expired(w.s.tracks.list, nowNs), nowNs);
    RecentAre(w.s.tracks.list, nowNs);
    RecentUnique(w, nowNs);
    EvaluateCases(w.s.danger, recent, w.s.status, feed);
    var d := Evaluate(w.s.danger, recent, w.s.status, feed).1;
    assert d == Snapshot(w.s, feed, nowNs).0.danger;
    hide Evaluate, FreshPoints, Expired, Snapshot;
    assert forall t | t in recent && Entering(t) :: DistanceSquared(t) < Square(DANGER_EXIT);
  }

  /** A snapshot now finds the latched track alive and inside the release distance, on trusted evidence. */
  ghost predicate StillHeld(s: State, nowNs: int) {
    Trusted(s.status) && LatchHolds(s, nowNs)
  }

  /** Every snapshot from the `n`-th step on finds the latch still held. */
  ghost predicate HeldFrom(status: Status, run: seq<Label>, n: nat) {
    forall k | n <= k < |run| && run[k].TakeSnapshot? :: StillHeld(Reached(status, run[..k]).s, run[k].nowNs)
  }

  ghost predicate LatchedFrom(status: Status, run: seq<Label>, n: nat, id: nat) {
    forall k | n <= k <= |run| :: Reached(status, run[..k]).s.danger == Some(id)
  }

  /**
   Over any part of a run that clears nothing, a latched DANGER stays on its
   track if and only if every snapshot finds that track alive and inside the
   release distance; frames alone never release or move it.
   */
  lemma {:induction false} LatchStaysIff(status: Status, run: seq<Label>, n: nat, id: nat)
    requires n <= |run| && KeepsEvidenceFrom(status, run, n) && Reached(status, run[..n]).s.danger == Some(id)
    ensures LatchedFrom(status, run, n, id) <==> HeldFrom(status, run, n)
  {
    hide Reached, StillHeld, KeepsEvidenceFrom, KeepsEvidence, Step;
    if n == |run| {
      assert run[..n] == run;
    } else {
      var front, last := run[..|run| - 1], run[|run| - 1];
      FrontKeepsEvidence(status, run, n);
      assert front[..n] == run[..n];
      LatchStaysIff(status, front, n, id);
      FrontLatched(status, run, n, id);
      FrontHeld(status, run, n);
      LastReached(status, run);
      if LatchedFrom(status, front, n, id) {
        assert front[..|front|] == front;
        LastLatchStep(status, front, last, id);
      }
      hide LatchedFrom, HeldFrom;
    }
  }

  lemma LastReached(status: Status, run: seq<Label>)
    requires run != []
    ensures Reached(status, run) == Step(Reached(status, run[..|run| - 1]), run[|run| - 1])
  {
  }

  lemma LastLatchStep(status: Status, front: seq<Label>, last: Label, id: nat)
    requires KeepsEvidence(Reached(status, front), last) && Reached(status, front).s.danger == Some(id)
    ensures Step(Reached(status, front), last).s.danger == Some(id) <==>
      (last.TakeSnapshot? ==> StillHeld(Reached(status, front).s, last.nowNs))
  {
    hide Reached, LatchHolds, Evaluate, Expired, UpsertAll;
    if last.TakeSnapshot? {
      LatchReleasedIff(status, front, last.feed, last.nowNs);
      hide Snapshot;
    }
  }

  lemma FrontLatched(status: Status, run: seq<Label>, n: nat, id: nat)
    requires n < |run|
    ensures LatchedFrom(status, run, n, id) <==>
      LatchedFrom(status, run[..|run| - 1], n, id) && Reached(status, run).s.danger == Some(id)
  {
    hide Reached;
    var front := run[..|run| - 1];
    if LatchedFrom(status, run, n, id) {
      assert run[..|run|] == run;
      forall k | n <= k <= |front| ensures Reached(status, front[..k]).s.danger == Some(id) {
        assert front[..k] == run[..k];
      }
    }
    if LatchedFrom(status, front, n, id) && Reached(status, run).s.danger == Some(id) {
      forall k | n <= k <= |run| ensures Reached(status, run[..k]).s.danger == Some(id) {
        assert run[..k] == if k == |run| then run else front[..k];
      }
    }
  }

  lemma FrontHeld(status: Status, run: seq<Label>, n: nat)
    requires n < |run|
    ensures var front, last := run[..|run| - 1], run[|run| - 1];
      HeldFrom(status, run, n) <==>
        HeldFrom(status, front, n) && (last.TakeSnapshot? ==> StillHeld(Reached(status, front).s, last.nowNs))
  {
    hide Reached, StillHeld;
    var front := run[..|run| - 1];
    assert front[..|front|] == front == run[..|front|];
    if HeldFrom(status, run, n) {
      forall k | n <= k < |front| && front[k].TakeSnapshot? ensures StillHeld(Reached(status, front[..k]).s, front[k].nowNs) {
        assert front[..k] == run[..k] && front[k] == run[k];
      }
    } else {
      var k :| n <= k < |run| && run[k].TakeSnapshot? && !StillHeld(Reached(status, run[..k]).s, run[k].nowNs);
      if k < |front| {
        assert front[..k] == run[..k] && front[k] == run[k];
      }
    }
  }

  /**
   Between snapshots, a frame that clears nothing keeps the latch and keeps the
   latched track a point track; it moves only if a point of the frame hits it.
   */
  lemma FrameKeepsLatchedTrack(w: World, f: Frame, nowNs: int, t: Track)
    requires Inv(w) && !Clears(w.s, f) && t in w.s.tracks.list && LivePoint(t, nowNs) && w.s.danger == Some(t.id)
    ensures var s' := Ingest(w.s, f, nowNs);
      && s'.danger == Some(t.id)
      && exists t' | t' in s'.tracks.list ::
           && t'.id == t.id && t'.source.FromPoint?
           && (t.id !in Hit(w.s, f, nowNs) ==> t'.forward == t.forward && t'.lateral == t.lateral && t'.receivedNs == t.receivedNs)
  {
    FrameEffect(w, f, nowNs);
    var found, s' := Found(w.s, f, nowNs), Ingest(w.s, f, nowNs);
    assert s'.danger == w.s.danger;
    ExpiredAre(w.s.tracks.list, nowNs);
    assert t in Expired(w.s.tracks.list, nowNs);
    var j :| 0 <= j < |Expired(w.s.tracks.list, nowNs)| && Expired(w.s.tracks.list, nowNs)[j] == t;
    assert found.list[j] == Aged(t, Windows(f));
    hide Found, Ingest, Expired, CountTrue, LastThree, Hit;
    assert s'.tracks.list[j] in s'.tracks.list;
  }
}
