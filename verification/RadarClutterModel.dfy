/**
 What the clusters of a calibration are, in terms of the frames: which
 components are kept, where their clusters lie, and in what order they come.
 */
module RadarClutterModel {
  import opened Wrappers
  import opened VoxelComponents
  import opened RadarCalibration

  // --- Observations --------------------------------------------------------------------------

  /** Within 0.15 m of the radar, and in one of the voxels, which are cubes of 0.02 m. */
  predicate Counts(l: Location, c: set<Voxel>) {
    && l.forward * l.forward + l.lateral * l.lateral + l.height * l.height <= 0.15 * 0.15
    && Voxel((l.forward / 0.02).Floor, (l.lateral / 0.02).Floor, (l.height / 0.02).Floor) in c
  }

  predicate Sees(points: Frame, c: set<Voxel>) {
    exists l | l in points :: Counts(l, c)
  }

  /** The frames with a point in the component. */
  function FramesSeeing(frames: seq<Frame>, c: set<Voxel>): set<nat> {
    set k: nat | k < |frames| && Sees(frames[k], c)
  }

  lemma CountsIff(l: Location, c: set<Voxel>)
    ensures Counts(l, c) <==> InRange(l) && VoxelOf(l) in c
  {
  }

  lemma {:induction false} FrameObsAre(i: nat, points: Frame)
    ensures forall o :: o in FrameObs(i, points) <==> o.frame == i && o.at in points && InRange(o.at)
  {
    hide InRange;
    if points != [] {
      FrameObsAre(i, points[..|points| - 1]);
      assert points == points[..|points| - 1] + [points[|points| - 1]];
    }
  }

  lemma {:induction false} AllAre(frames: seq<Frame>)
    ensures forall o :: o in AllOf(frames) <==> o.frame < |frames| && o.at in frames[o.frame] && InRange(o.at)
  {
    hide InRange;
    if frames != [] {
      var front := frames[..|frames| - 1];
      AllAre(front);
      FrameObsAre(|front|, frames[|front|]);
      forall o ensures o in AllOf(frames) <==> o.frame < |frames| && o.at in frames[o.frame] && InRange(o.at) {
        if o.frame < |front| {
          assert front[o.frame] == frames[o.frame];
        }
      }
    }
  }

  /** The observations of a component are the points that count, each with its frame. */
  lemma ObservationsAre(frames: seq<Frame>, c: set<Voxel>)
    ensures forall o :: o in In(AllOf(frames), c) <==> o.frame < |frames| && o.at in frames[o.frame] && Counts(o.at, c)
    ensures FramesIn(In(AllOf(frames), c)) == FramesSeeing(frames, c)
  {
    AllAre(frames);
    InNonEmpty(AllOf(frames), c);
    forall o: Obs ensures Counts(o.at, c) <==> InRange(o.at) && VoxelOf(o.at) in c {
      CountsIff(o.at, c);
    }
    hide In, AllOf, InRange, Counts, VoxelOf;
    var values := In(AllOf(frames), c);
    forall k: nat | k < |frames| && Sees(frames[k], c) ensures k in FramesIn(values) {
      var l :| l in frames[k] && Counts(l, c);
      assert Obs(k, l) in values;
    }
  }

  // --- One cluster -------------------------------------------------------------------------------

  /** The middle value in any ascending order, or the mean of the middle two. */
  ghost predicate IsMedian(m: real, s: seq<real>) {
    forall r | Ascending(r) && multiset(r) == multiset(s) :: |r| > 0 &&
      m == if |r| % 2 == 1 then r[(|r| - 1) / 2] else (r[|r| / 2 - 1] + r[|r| / 2]) / 2.0
  }

  lemma MedianMeans(m: real, s: seq<real>)
    requires s != []
    ensures m == Median(s) <==> IsMedian(m, s)
  {
    var sorted := Sorted(s);
    forall r | Ascending(r) && multiset(r) == multiset(s) ensures r == sorted {
      AscendingUnique(r, sorted);
    }
    hide Ascending;
    assert |sorted| == |s| && (|sorted| % 2 == 1 ==> |sorted| / 2 == (|sorted| - 1) / 2);
  }

  /** The distance of the farthest, squared. */
  predicate IsFarthest(d: real, center: Location, s: seq<Location>) {
    (exists l | l in s :: DistanceSquared(center, l) == d) && forall l | l in s :: DistanceSquared(center, l) <= d
  }

  /** A distance squared, clamped to the radii allowed. */
  function Clamped(d: real): real {
    if d <= 0.025 * 0.025 then 0.025 * 0.025 else if d >= 0.08 * 0.08 then 0.08 * 0.08 else d
  }

  /** A cluster of these points: median centre, and the clamped distance of the farthest as radius. */
  ghost predicate Describes(cluster: Cluster, locations: seq<Location>) {
    && IsMedian(cluster.center.forward, Forwards(locations))
    && IsMedian(cluster.center.lateral, Laterals(locations))
    && IsMedian(cluster.center.height, Heights(locations))
    && exists d :: IsFarthest(d, cluster.center, locations) && cluster.radiusSquared == Clamped(d)
  }

  lemma ShapeIff(locations: seq<Location>, cluster: Cluster)
    requires locations != []
    ensures cluster == Shape(locations, cluster.fraction) <==> Describes(cluster, locations)
  {
    hide IsMedian, Median, DistanceSquared, IsFarthest, FarthestSquared;
    MedianMeans(cluster.center.forward, Forwards(locations));
    MedianMeans(cluster.center.lateral, Laterals(locations));
    MedianMeans(cluster.center.height, Heights(locations));
    FarthestIff(cluster.center, locations);
    assert IsFarthest(FarthestSquared(cluster.center, locations), cluster.center, locations);
  }

  lemma FarthestIff(center: Location, s: seq<Location>)
    requires s != []
    ensures forall d :: IsFarthest(d, center, s) <==> d == FarthestSquared(center, s)
  {
    FarthestIs(center, s);
    hide DistanceSquared, FarthestSquared;
  }

  /** A component gives a cluster exactly when at least 60 % of the frames see it, and the cluster is of its points. */
  lemma ClusterIff(frames: seq<Frame>, c: set<Voxel>, cluster: Cluster)
    requires frames != [] && In(AllOf(frames), c) != []
    ensures ClusterFrom(|frames|, In(AllOf(frames), c)) == Some(cluster) <==>
      && 5 * |FramesSeeing(frames, c)| >= 3 * |frames|
      && cluster.fraction == |FramesSeeing(frames, c)| as real / |frames| as real
      && Describes(cluster, Locations(In(AllOf(frames), c)))
  {
    hide *;
    ObservationsAre(frames, c);
    FromIff(|frames|, In(AllOf(frames), c), cluster);
  }

  lemma FromIff(total: nat, values: seq<Obs>, cluster: Cluster)
    requires total > 0 && values != []
    ensures ClusterFrom(total, values) == Some(cluster) <==>
      && 5 * |FramesIn(values)| >= 3 * total
      && cluster.fraction == |FramesIn(values)| as real / total as real
      && Describes(cluster, Locations(values))
  {
    hide Describes, Shape, FramesIn, Locations;
    ShapeIff(Locations(values), cluster);
    ShapeFraction(Locations(values), |FramesIn(values)| as real / total as real);
    AtLeast(|FramesIn(values)|, total);
  }

  lemma ShapeFraction(locations: seq<Location>, fraction: real)
    requires locations != []
    ensures Shape(locations, fraction).fraction == fraction
  {
    hide Median, FarthestSquared;
  }

  lemma AtLeast(seen: nat, n: nat)
    requires n > 0
    ensures seen as real / n as real < MIN_FRACTION <==> 5 * seen < 3 * n
  {
    assert seen as real / n as real * n as real == seen as real;
    if seen as real / n as real < MIN_FRACTION {
      assert seen as real < 0.6 * n as real;
    } else {
      assert seen as real >= 0.6 * n as real;
    }
  }

  // --- All clusters ---------------------------------------------------------------------------------

  lemma {:induction false} KeptAre(total: nat, all: seq<Obs>, components: seq<set<Voxel>>, cluster: Cluster)
    requires forall i | 0 <= i < |components| :: components[i] * VoxelsOf(all) != {}
    requires all != [] ==> total > 0
    ensures cluster in Kept(total, all, components) <==>
      exists i | 0 <= i < |components| :: CameFrom(total, all, components[i], cluster)
  {
    hide ClusterFrom, In, VoxelsOf;
    if components != [] {
      var front, c := components[..|components| - 1], components[|components| - 1];
      Occupied(all, c);
      KeptAre(total, all, front, cluster);
      assert components[|components| - 1] == c && forall i | 0 <= i < |front| :: front[i] == components[i];
    }
  }

  predicate CameFrom(total: nat, all: seq<Obs>, c: set<Voxel>, cluster: Cluster) {
    total > 0 && In(all, c) != [] && ClusterFrom(total, In(all, c)) == Some(cluster)
  }

  /** Sorting keeps the clusters and puts them in the order of their centres. */
  predicate InOrder(s: seq<Cluster>) {
    forall i, j | 0 <= i < j < |s| :: !ClusterLess(s[j], s[i])
  }

  lemma LessOrNot(a: Cluster, b: Cluster, c: Cluster)
    ensures !ClusterLess(b, a) && !ClusterLess(c, b) ==> !ClusterLess(c, a)
    ensures ClusterLess(a, b) ==> !ClusterLess(b, a)
    ensures ClusterLess(a, b) && !ClusterLess(c, b) ==> !ClusterLess(c, a)
  {
  }

  lemma {:induction false} InsertInOrder(s: seq<Cluster>, c: Cluster)
    requires InOrder(s)
    ensures InOrder(InsertCluster(s, c)) && multiset(InsertCluster(s, c)) == multiset(s) + multiset{c}
  {
    hide ClusterLess;
    if s != [] {
      var front, last := s[..|s| - 1], s[|s| - 1];
      assert s == front + [last];
      if !ClusterLess(c, last) {
        var r := s + [c];
        forall i, j | 0 <= i < j < |r| ensures !ClusterLess(r[j], r[i]) {
          if j == |s| && i < |s| - 1 {
            LessOrNot(s[i], last, c);
          }
        }
      } else {
        InsertInOrder(front, c);
        LastInOrder(InsertCluster(front, c), front, c, last);
      }
    }
  }

  lemma LastInOrder(r: seq<Cluster>, front: seq<Cluster>, c: Cluster, last: Cluster)
    requires InOrder(r) && multiset(r) == multiset(front) + multiset{c}
    requires InOrder(front + [last]) && ClusterLess(c, last)
    ensures InOrder(r + [last])
  {
    hide ClusterLess;
    forall i | 0 <= i < |r| ensures !ClusterLess(last, r[i]) {
      assert r[i] in multiset(r);
      if r[i] == c {
        LessOrNot(c, last, c);
      } else {
        assert r[i] in front;
        var k :| 0 <= k < |front| && front[k] == r[i];
        assert (front + [last])[k] == r[i] && (front + [last])[|front|] == last;
      }
    }
  }

  lemma {:induction false} SortedInOrder(s: seq<Cluster>)
    ensures InOrder(SortedClusters(s)) && multiset(SortedClusters(s)) == multiset(s)
  {
    hide InsertCluster, ClusterLess;
    if s != [] {
      SortedInOrder(s[..|s| - 1]);
      InsertInOrder(SortedClusters(s[..|s| - 1]), s[|s| - 1]);
      assert s == s[..|s| - 1] + [s[|s| - 1]];
    }
  }

  /**
   The clusters of a calibration, in the order of their centres, are those of
   the connected components seen by at least 60 % of the frames: centre and
   radius are the medians and the clamped farthest distance of its points.
   */
  lemma ClustersAre(frames: seq<Frame>, cluster: Cluster)
    requires frames != []
    ensures InOrder(ClustersOf(frames))
    ensures cluster in ClustersOf(frames) <==> exists c | c in ComponentsOf(VoxelsOf(AllOf(frames))) ::
      && 5 * |FramesSeeing(frames, c)| >= 3 * |frames|
      && cluster.fraction == |FramesSeeing(frames, c)| as real / |frames| as real
      && Describes(cluster, Locations(In(AllOf(frames), c)))
  {
    var all := AllOf(frames);
    var cs := ComponentsOf(VoxelsOf(all));
    ComponentsOccupied(VoxelsOf(all));
    var kept := Kept(|frames|, all, cs);
    SortedInOrder(kept);
    assert cluster in ClustersOf(frames) <==> cluster in multiset(SortedClusters(kept));
    KeptAre(|frames|, all, cs, cluster);
    hide ClustersOf, Kept, SortedClusters, Describes, FramesSeeing, Locations, ComponentsOf;
    forall c | c in cs
      ensures CameFrom(|frames|, all, c, cluster) <==>
        && 5 * |FramesSeeing(frames, c)| >= 3 * |frames|
        && cluster.fraction == |FramesSeeing(frames, c)| as real / |frames| as real
        && Describes(cluster, Locations(In(all, c)))
    {
      Occupied(all, c);
      ClusterIff(frames, c, cluster);
    }
    hide ClusterFrom;
  }
}
