/**
 Clutter clusters of a radar calibration (sensors/radar_calibration.py,
 `_point_clusters`), on points already mapped to forward, lateral and height.
 Coordinates are exact; a cluster keeps its radius squared.
 */
module RadarCalibration {
  import opened Wrappers
  import opened VoxelComponents

  const POINT_VOXEL := 0.02
  const MIN_FRACTION := 0.60
  const MIN_RADIUS := 0.025
  const MAX_RADIUS := 0.08
  const MAX_RANGE := 0.15

  datatype Location = Location(forward: real, lateral: real, height: real)

  type Frame = seq<Location>

  /** A point in range, with the index of the frame it came from. */
  datatype Obs = Obs(frame: nat, at: Location)

  datatype Cluster = Cluster(center: Location, radiusSquared: real, fraction: real)

  function VoxelOf(l: Location): Voxel {
    Voxel((l.forward / POINT_VOXEL).Floor, (l.lateral / POINT_VOXEL).Floor, (l.height / POINT_VOXEL).Floor)
  }

  function DistanceSquared(a: Location, b: Location): real {
    (a.forward - b.forward) * (a.forward - b.forward) + (a.lateral - b.lateral) * (a.lateral - b.lateral)
    + (a.height - b.height) * (a.height - b.height)
  }

  predicate InRange(l: Location) {
    DistanceSquared(Location(0.0, 0.0, 0.0), l) <= MAX_RANGE * MAX_RANGE
  }

  // --- Order statistics -----------------------------------------------------------------

  predicate Ascending(s: seq<real>) {
    forall i, j | 0 <= i < j < |s| :: s[i] <= s[j]
  }

  function Insert(x: real, s: seq<real>): (r: seq<real>)
    ensures multiset(r) == multiset(s) + multiset{x}
  {
    if s == [] || x <= s[0] then
      [x] + s
    else
      assert s == [s[0]] + s[1..];
      [s[0]] + Insert(x, s[1..])
  }

  lemma {:induction false} InsertAscending(x: real, s: seq<real>)
    requires Ascending(s)
    ensures Ascending(Insert(x, s))
  {
    if s != [] && x > s[0] {
      InsertAscending(x, s[1..]);
      var r := Insert(x, s[1..]);
      forall e | e in r ensures s[0] <= e {
        assert e in multiset(r);
        assert e == x || e in multiset(s[1..]);
        assert e == x || e in s[1..];
      }
      ConsAscending(s[0], r);
    } else {
      ConsAscending(x, s);
    }
  }

  lemma ConsAscending(h: real, s: seq<real>)
    requires Ascending(s) && forall e | e in s :: h <= e
    ensures Ascending([h] + s)
  {
    var r := [h] + s;
    forall i, j | 0 <= i < j < |r| ensures r[i] <= r[j] {
      assert r[j] == s[j - 1] && s[j - 1] in s;
    }
  }

  /** `sorted` on numbers. */
  function Sorted(s: seq<real>): (r: seq<real>)
    ensures Ascending(r) && multiset(r) == multiset(s) && |r| == |s|
  {
    if s == [] then []
    else
      assert s == [s[0]] + s[1..];
      InsertAscending(s[0], Sorted(s[1..]));
      var r := Insert(s[0], Sorted(s[1..]));
      assert |r| == |multiset(r)| == |multiset(s)| == |s|;
      r
  }

  /** `statistics.median`. */
  function Median(s: seq<real>): real
    requires s != []
  {
    var r := Sorted(s);
    if |r| % 2 == 1 then r[|r| / 2] else (r[|r| / 2 - 1] + r[|r| / 2]) / 2.0
  }

  function RealMax(a: real, b: real): real {
    if a < b then b else a
  }

  function RealMin(a: real, b: real): real {
    if a < b then a else b
  }

  function FarthestSquared(center: Location, s: seq<Location>): real
    requires s != []
  {
    var last := DistanceSquared(center, s[|s| - 1]);
    if |s| == 1 then last else RealMax(FarthestSquared(center, s[..|s| - 1]), last)
  }

  // --- One cluster ------------------------------------------------------------------------

  function Locations(values: seq<Obs>): (r: seq<Location>)
    ensures |r| == |values|
  {
    seq(|values|, i requires 0 <= i < |values| => values[i].at)
  }

  function Forwards(s: seq<Location>): (r: seq<real>)
    ensures |r| == |s|
  {
    seq(|s|, i requires 0 <= i < |s| => s[i].forward)
  }

  function Laterals(s: seq<Location>): (r: seq<real>)
    ensures |r| == |s|
  {
    seq(|s|, i requires 0 <= i < |s| => s[i].lateral)
  }

  function Heights(s: seq<Location>): (r: seq<real>)
    ensures |r| == |s|
  {
    seq(|s|, i requires 0 <= i < |s| => s[i].height)
  }

  function FramesIn(values: seq<Obs>): set<nat> {
    set o | o in values :: o.frame
  }

  /** Shape of a cluster from its points, wherever and in whatever order they were seen. */
  function Shape(locations: seq<Location>, fraction: real): Cluster
    requires locations != []
  {
    var center := Location(Median(Forwards(locations)), Median(Laterals(locations)), Median(Heights(locations)));
    Cluster(center,
            RealMin(MAX_RADIUS * MAX_RADIUS, RealMax(MIN_RADIUS * MIN_RADIUS, FarthestSquared(center, locations))),
            fraction)
  }

  /** The cluster of one component, unless too few frames saw it. */
  function ClusterFrom(total: nat, values: seq<Obs>): Option<Cluster>
    requires total > 0 && values != []
  {
    var fraction := |FramesIn(values)| as real / total as real;
    if fraction < MIN_FRACTION then None else Some(Shape(Locations(values), fraction))
  }

  predicate ClusterLess(a: Cluster, b: Cluster) {
    var p, q := a.center, b.center;
    p.forward < q.forward || (p.forward == q.forward && (p.lateral < q.lateral || (p.lateral == q.lateral && p.height < q.height)))
  }

  function InsertCluster(s: seq<Cluster>, c: Cluster): seq<Cluster> {
    if s == [] || !ClusterLess(c, s[|s| - 1]) then s + [c]
    else InsertCluster(s[..|s| - 1], c) + [s[|s| - 1]]
  }

  /** `sorted` by centre; equal centres stay in order. */
  function SortedClusters(s: seq<Cluster>): seq<Cluster> {
    if s == [] then [] else InsertCluster(SortedClusters(s[..|s| - 1]), s[|s| - 1])
  }

  // --- Observations -------------------------------------------------------------------------

  function FrameObs(i: nat, points: Frame): seq<Obs> {
    if points == [] then []
    else
      var before, last := FrameObs(i, points[..|points| - 1]), points[|points| - 1];
      if InRange(last) then before + [Obs(i, last)] else before
  }

  /** Every point in range, frame by frame. */
  function AllOf(frames: seq<Frame>): seq<Obs> {
    if frames == [] then []
    else AllOf(frames[..|frames| - 1]) + FrameObs(|frames| - 1, frames[|frames| - 1])
  }

  function VoxelsOf(s: seq<Obs>): set<Voxel> {
    set o | o in s :: VoxelOf(o.at)
  }

  function In(s: seq<Obs>, c: set<Voxel>): seq<Obs> {
    if s == [] then []
    else
      var before, last := In(s[..|s| - 1], c), s[|s| - 1];
      if VoxelOf(last.at) in c then before + [last] else before
  }

  lemma {:induction false} InNonEmpty(s: seq<Obs>, c: set<Voxel>)
    ensures forall o :: o in In(s, c) <==> o in s && VoxelOf(o.at) in c
  {
    if s != [] {
      InNonEmpty(s[..|s| - 1], c);
      assert s == s[..|s| - 1] + [s[|s| - 1]];
    }
  }

  lemma {:induction false} InEmpty(s: seq<Obs>, c: set<Voxel>)
    requires c !! VoxelsOf(s)
    ensures In(s, c) == []
  {
    if s != [] {
      var front, last := s[..|s| - 1], s[|s| - 1];
      assert s == front + [last] && last in s;
      assert VoxelOf(last.at) in VoxelsOf(s);
      assert VoxelsOf(front) <= VoxelsOf(s);
      InEmpty(front, c);
    }
  }

  lemma {:induction false} InSplit(s: seq<Obs>, c: set<Voxel>, v: Voxel)
    requires v !in c
    ensures multiset(In(s, c + {v})) == multiset(In(s, c)) + multiset(In(s, {v}))
  {
    if s != [] {
      InSplit(s[..|s| - 1], c, v);
    }
  }

  /** The dictionary of observations by voxel. */
  method BuildObservations(frames: seq<Frame>) returns (observations: map<Voxel, seq<Obs>>)
    ensures observations.Keys == VoxelsOf(AllOf(frames))
    ensures forall v | v in observations :: observations[v] == In(AllOf(frames), {v})
  {
    observations := map[];
    for i := 0 to |frames|
      invariant Indexes(observations, AllOf(frames[..i]))
    {
      observations := AddFrame(observations, AllOf(frames[..i]), i, frames[i]);
      assert frames[..i + 1][..i] == frames[..i];
    }
    assert frames[..|frames|] == frames;
  }

  ghost predicate Indexes(observations: map<Voxel, seq<Obs>>, done: seq<Obs>) {
    && observations.Keys == VoxelsOf(done)
    && forall v | v in observations :: observations[v] == In(done, {v})
  }

  method AddFrame(observations0: map<Voxel, seq<Obs>>, ghost done: seq<Obs>, i: nat, points: Frame)
    returns (observations: map<Voxel, seq<Obs>>)
    requires Indexes(observations0, done)
    ensures Indexes(observations, done + FrameObs(i, points))
  {
    observations := observations0;
    assert done + [] == done;
    for j := 0 to |points|
      invariant Indexes(observations, done + FrameObs(i, points[..j]))
    {
      assert points[..j + 1][..j] == points[..j];
      if InRange(points[j]) {
        var o := Obs(i, points[j]);
        ghost var before := done + FrameObs(i, points[..j]);
        assert done + FrameObs(i, points[..j + 1]) == before + [o];
        IndexAppend(observations, before, o);
        var voxel := VoxelOf(o.at);
        observations := observations[voxel := (if voxel in observations then observations[voxel] else []) + [o]];
      }
    }
    assert points[..|points|] == points;
  }

  lemma IndexAppend(observations: map<Voxel, seq<Obs>>, done: seq<Obs>, o: Obs)
    requires Indexes(observations, done)
    ensures var v := VoxelOf(o.at);
      Indexes(observations[v := (if v in observations then observations[v] else []) + [o]], done + [o])
  {
    hide InRange;
    var v, all := VoxelOf(o.at), done + [o];
    assert all[..|done|] == done;
    assert VoxelsOf(all) == VoxelsOf(done) + {v};
    if v !in VoxelsOf(done) {
      InEmpty(done, {v});
    }
  }

  /** The values of a component, collected voxel by voxel. */
  method Collect(observations: map<Voxel, seq<Obs>>, ghost all: seq<Obs>, component: set<Voxel>) returns (values: seq<Obs>)
    requires Indexes(observations, all) && component <= observations.Keys
    ensures multiset(values) == multiset(In(all, component))
  {
    values := [];
    var rest := component;
    ghost var done: set<Voxel> := {};
    InEmpty(all, {});
    while rest != {}
      invariant done + rest == component && done !! rest
      invariant multiset(values) == multiset(In(all, done))
      decreases |rest|
    {
      var v := Least(rest);
      InSplit(all, done, v);
      values := values + observations[v];
      rest := rest - {v};
      done := done + {v};
    }
  }

  function Kept(total: nat, all: seq<Obs>, components: seq<set<Voxel>>): seq<Cluster>
    requires forall i | 0 <= i < |components| :: components[i] * VoxelsOf(all) != {}
    requires all != [] ==> total > 0
  {
    if components == [] then []
    else
      var before, c := Kept(total, all, components[..|components| - 1]), components[|components| - 1];
      Occupied(all, c);
      match ClusterFrom(total, In(all, c))
      case None => before
      case Some(cluster) => before + [cluster]
  }

  lemma Occupied(all: seq<Obs>, c: set<Voxel>)
    requires c * VoxelsOf(all) != {}
    ensures In(all, c) != [] && all != []
  {
    InNonEmpty(all, c);
    var v :| v in c * VoxelsOf(all);
    var o :| o in all && VoxelOf(o.at) == v;
    assert o in In(all, c);
  }

  lemma ComponentsOccupied(s: set<Voxel>)
    ensures forall i | 0 <= i < |ComponentsOf(s)| :: ComponentsOf(s)[i] <= s && ComponentsOf(s)[i] * s != {}
  {
    ComponentsAreClasses(s);
    hide ComponentsOf, ComponentOf;
    var cs := ComponentsOf(s);
    forall i | 0 <= i < |cs| ensures cs[i] <= s && cs[i] * s != {} {
      assert cs[i] != {};
      var v :| v in cs[i];
      assert v in cs[i] * s;
    }
  }

  /** The clusters of a calibration, as a function of its frames. */
  ghost function ClustersOf(frames: seq<Frame>): seq<Cluster> {
    var all := AllOf(frames);
    ComponentsOccupied(VoxelsOf(all));
    SortedClusters(Kept(|frames|, all, ComponentsOf(VoxelsOf(all))))
  }

  /** `_point_clusters`. */
  method PointClusters(frames: seq<Frame>) returns (clusters: seq<Cluster>)
    ensures clusters == ClustersOf(frames)
  {
    hide ComponentsOf, ClusterFrom, In;
    ghost var all := AllOf(frames);
    var observations := BuildObservations(frames);
    var components := FindComponents(observations.Keys);
    ComponentsOccupied(VoxelsOf(all));
    clusters := [];
    for i := 0 to |components|
      invariant clusters == Kept(|frames|, all, components[..i])
    {
      assert components[..i + 1][..i] == components[..i];
      Occupied(all, components[i]);
      var values := Collect(observations, all, components[i]);
      SameValues(|frames|, values, In(all, components[i]));
      var cluster := ClusterFrom(|frames|, values);
      if cluster.Some? {
        clusters := clusters + [cluster.value];
      }
    }
    assert components[..|components|] == components;
    clusters := SortedClusters(clusters);
  }

  // --- Order does not matter to a cluster ------------------------------------------------------

  lemma {:induction false} AscendingUnique(a: seq<real>, b: seq<real>)
    requires Ascending(a) && Ascending(b) && multiset(a) == multiset(b)
    ensures a == b
  {
    assert |a| == |multiset(a)| == |multiset(b)| == |b|;
    if a != [] {
      SameLeast(a, b);
      SameLeast(b, a);
      assert a == [a[0]] + a[1..] && b == [b[0]] + b[1..];
      assert multiset(a[1..]) == multiset(a) - multiset{a[0]} == multiset(b[1..]);
      hide Ascending;
      assert Ascending(a[1..]) && Ascending(b[1..]) by { TailAscending(a); TailAscending(b); }
      AscendingUnique(a[1..], b[1..]);
    }
  }

  lemma TailAscending(a: seq<real>)
    requires Ascending(a) && a != []
    ensures Ascending(a[1..])
  {
  }

  lemma SameLeast(a: seq<real>, b: seq<real>)
    requires Ascending(b) && a != [] && b != [] && multiset(a) == multiset(b)
    ensures b[0] <= a[0]
  {
    assert a[0] in multiset(b);
  }

  lemma MedianUnordered(a: seq<real>, b: seq<real>)
    requires a != [] && multiset(a) == multiset(b)
    ensures b != [] && Median(a) == Median(b)
  {
    assert |multiset(a)| == |a| && |multiset(b)| == |b|;
    AscendingUnique(Sorted(a), Sorted(b));
  }

  lemma {:induction false} FarthestIs(center: Location, s: seq<Location>)
    requires s != []
    ensures exists l | l in s :: FarthestSquared(center, s) == DistanceSquared(center, l)
    ensures forall l | l in s :: DistanceSquared(center, l) <= FarthestSquared(center, s)
  {
    hide DistanceSquared;
    var front, last := s[..|s| - 1], s[|s| - 1];
    assert s == front + [last];
    if front != [] {
      FarthestIs(center, front);
    }
  }

  lemma FarthestUnordered(center: Location, a: seq<Location>, b: seq<Location>)
    requires a != [] && multiset(a) == multiset(b)
    ensures b != [] && FarthestSquared(center, a) == FarthestSquared(center, b)
  {
    hide DistanceSquared, FarthestSquared;
    assert a[0] in multiset(b);
    assert forall l :: l in a <==> l in multiset(a);
    assert forall l :: l in b <==> l in multiset(b);
    FarthestIs(center, a);
    FarthestIs(center, b);
  }

  /** Removing the same element from two orderings. */
  lemma Taking<T>(s: seq<T>, j: nat)
    requires j < |s|
    ensures multiset(s[..j] + s[j + 1..]) == multiset(s) - multiset{s[j]}
  {
    assert s == s[..j] + [s[j]] + s[j + 1..];
    assert multiset(s) == multiset(s[..j]) + multiset{s[j]} + multiset(s[j + 1..]);
  }

  lemma Without<T>(a: seq<T>, b: seq<T>) returns (j: nat)
    requires a != [] && multiset(a) == multiset(b)
    ensures j < |b| && b[j] == a[|a| - 1]
    ensures multiset(a[..|a| - 1]) == multiset(b[..j] + b[j + 1..])
  {
    var x := a[|a| - 1];
    assert x in multiset(a);
    j :| 0 <= j < |b| && b[j] == x;
    Taking(a, |a| - 1);
    Taking(b, j);
    assert a[..|a| - 1] + a[|a| - 1 + 1..] == a[..|a| - 1];
  }

  lemma {:induction false} LocationsUnordered(a: seq<Obs>, b: seq<Obs>)
    requires multiset(a) == multiset(b)
    ensures multiset(Locations(a)) == multiset(Locations(b))
    decreases |a|
  {
    if a != [] {
      var j := Without(a, b);
      var rest := b[..j] + b[j + 1..];
      LocationsUnordered(a[..|a| - 1], rest);
      assert Locations(a) == Locations(a[..|a| - 1]) + [a[|a| - 1].at];
      assert Locations(b) == Locations(rest)[..j] + [b[j].at] + Locations(rest)[j..];
      assert Locations(rest) == Locations(rest)[..j] + Locations(rest)[j..];
    } else {
      assert |multiset(a)| == 0 && |multiset(b)| == |b|;
    }
  }

  lemma {:induction false} CoordinatesUnordered(a: seq<Location>, b: seq<Location>)
    requires multiset(a) == multiset(b)
    ensures multiset(Forwards(a)) == multiset(Forwards(b))
    ensures multiset(Laterals(a)) == multiset(Laterals(b))
    ensures multiset(Heights(a)) == multiset(Heights(b))
    decreases |a|
  {
    if a != [] {
      var j := Without(a, b);
      var front, last, rest := a[..|a| - 1], a[|a| - 1], b[..j] + b[j + 1..];
      CoordinatesUnordered(front, rest);
      CoordinatesApart(a, b, j, front, rest);
    } else {
      assert |multiset(a)| == 0 && |multiset(b)| == |b|;
    }
  }

  lemma CoordinatesApart(a: seq<Location>, b: seq<Location>, j: nat, front: seq<Location>, rest: seq<Location>)
    requires a != [] && front == a[..|a| - 1] && j < |b| && rest == b[..j] + b[j + 1..] && b[j] == a[|a| - 1]
    ensures multiset(Forwards(a)) == multiset(Forwards(front)) + multiset{b[j].forward}
    ensures multiset(Forwards(b)) == multiset(Forwards(rest)) + multiset{b[j].forward}
    ensures multiset(Laterals(a)) == multiset(Laterals(front)) + multiset{b[j].lateral}
    ensures multiset(Laterals(b)) == multiset(Laterals(rest)) + multiset{b[j].lateral}
    ensures multiset(Heights(a)) == multiset(Heights(front)) + multiset{b[j].height}
    ensures multiset(Heights(b)) == multiset(Heights(rest)) + multiset{b[j].height}
  {
    Around(Forwards(a), Forwards(front), |a| - 1);
    Around(Forwards(b), Forwards(rest), j);
    Around(Laterals(a), Laterals(front), |a| - 1);
    Around(Laterals(b), Laterals(rest), j);
    Around(Heights(a), Heights(front), |a| - 1);
    Around(Heights(b), Heights(rest), j);
  }

  lemma Around(all: seq<real>, rest: seq<real>, j: nat)
    requires j < |all| && |rest| == |all| - 1
    requires forall i | 0 <= i < |rest| :: rest[i] == all[if i < j then i else i + 1]
    ensures multiset(all) == multiset(rest) + multiset{all[j]}
  {
    assert all == rest[..j] + [all[j]] + rest[j..];
    assert rest == rest[..j] + rest[j..];
  }

  lemma ShapeUnordered(a: seq<Location>, b: seq<Location>, fraction: real)
    requires a != [] && multiset(a) == multiset(b)
    ensures b != [] && Shape(a, fraction) == Shape(b, fraction)
  {
    hide Median, FarthestSquared;
    CoordinatesUnordered(a, b);
    MedianUnordered(Forwards(a), Forwards(b));
    MedianUnordered(Laterals(a), Laterals(b));
    MedianUnordered(Heights(a), Heights(b));
    assert b != [];
    FarthestUnordered(Shape(a, fraction).center, a, b);
  }

  lemma SameValues(total: nat, a: seq<Obs>, b: seq<Obs>)
    requires total > 0 && a != [] && multiset(a) == multiset(b)
    ensures b != [] && ClusterFrom(total, a) == ClusterFrom(total, b)
  {
    hide Shape;
    assert forall o :: o in a <==> o in multiset(a);
    assert forall o :: o in b <==> o in multiset(b);
    assert FramesIn(a) == FramesIn(b);
    LocationsUnordered(a, b);
    ShapeUnordered(Locations(a), Locations(b), |FramesIn(a)| as real / total as real);
  }

  // --- Order does not matter to a calibration -----------------------------------------------------

  /** A frame without the order of its points. */
  function Bags(frames: seq<Frame>): (r: seq<multiset<Location>>)
    ensures |r| == |frames|
  {
    seq(|frames|, i requires 0 <= i < |frames| => multiset(frames[i]))
  }

  /** The same frames in any order, with the points of each in any order. */
  predicate SameUpToOrder(a: seq<Frame>, b: seq<Frame>) {
    multiset(Bags(a)) == multiset(Bags(b))
  }

  ghost function Sum(bags: seq<multiset<Location>>, f: multiset<Location> -> nat): nat {
    if bags == [] then 0 else Sum(bags[..|bags| - 1], f) + f(bags[|bags| - 1])
  }

  lemma {:induction false} SumJoin(a: seq<multiset<Location>>, b: seq<multiset<Location>>, f: multiset<Location> -> nat)
    ensures Sum(a + b, f) == Sum(a, f) + Sum(b, f)
  {
    if b == [] {
      assert a + b == a;
    } else {
      assert (a + b)[..|a + b| - 1] == a + b[..|b| - 1];
      SumJoin(a, b[..|b| - 1], f);
    }
  }

  lemma {:induction false} SumUnordered(a: seq<multiset<Location>>, b: seq<multiset<Location>>, f: multiset<Location> -> nat)
    requires multiset(a) == multiset(b)
    ensures Sum(a, f) == Sum(b, f)
    decreases |a|
  {
    if a != [] {
      var j := Without(a, b);
      var rest := b[..j] + b[j + 1..];
      SumUnordered(a[..|a| - 1], rest, f);
      SumJoin(b[..j], b[j + 1..], f);
      SumJoin(b[..j], [b[j]] + b[j + 1..], f);
      SumJoin([b[j]], b[j + 1..], f);
      assert b == b[..j] + ([b[j]] + b[j + 1..]);
      assert [b[j]][..0] == [];
    } else {
      assert |multiset(a)| == 0 && |multiset(b)| == |b|;
    }
  }

  predicate Sees(bag: multiset<Location>, c: set<Voxel>) {
    exists l | l in bag :: InRange(l) && VoxelOf(l) in c
  }

  function SeesOne(c: set<Voxel>): multiset<Location> -> nat {
    bag => if Sees(bag, c) then 1 else 0
  }

  function CountOf(l: Location): multiset<Location> -> nat {
    bag => bag[l]
  }

  lemma {:induction false} FrameObsIs(i: nat, points: Frame)
    ensures forall o :: o in FrameObs(i, points) <==> o.frame == i && o.at in points && InRange(o.at)
  {
    hide InRange;
    if points != [] {
      FrameObsIs(i, points[..|points| - 1]);
      assert points == points[..|points| - 1] + [points[|points| - 1]];
    }
  }

  lemma {:induction false} AllOfFrames(frames: seq<Frame>)
    ensures forall o | o in AllOf(frames) :: o.frame < |frames|
  {
    if frames != [] {
      AllOfFrames(frames[..|frames| - 1]);
      FrameObsIs(|frames| - 1, frames[|frames| - 1]);
    }
  }

  lemma {:induction false} InJoin(a: seq<Obs>, b: seq<Obs>, c: set<Voxel>)
    ensures In(a + b, c) == In(a, c) + In(b, c)
  {
    if b == [] {
      assert a + b == a;
    } else {
      assert (a + b)[..|a + b| - 1] == a + b[..|b| - 1];
      InJoin(a, b[..|b| - 1], c);
    }
  }

  /** How many frames saw a component, counted from the frames without their order. */
  lemma {:induction false} FramesSeen(frames: seq<Frame>, c: set<Voxel>)
    ensures |FramesIn(In(AllOf(frames), c))| == Sum(Bags(frames), SeesOne(c))
  {
    if frames == [] {
      assert FramesIn([]) == {};
    } else {
      var n, front, last := |frames| - 1, frames[..|frames| - 1], frames[|frames| - 1];
      FramesSeen(front, c);
      assert Bags(frames)[..n] == Bags(front) && Bags(frames)[n] == multiset(last);
      OneMoreFrameSeen(front, last, c);
      hide In, FramesIn, FrameObs, Bags;
    }
  }

  lemma OneMoreFrameSeen(front: seq<Frame>, last: Frame, c: set<Voxel>)
    ensures |FramesIn(In(AllOf(front) + FrameObs(|front|, last), c))| ==
            |FramesIn(In(AllOf(front), c))| + if Sees(multiset(last), c) then 1 else 0
  {
    hide AllOf, In, FrameObs, Sees;
    var n, mine := |front|, In(FrameObs(|front|, last), c);
    var before := In(AllOf(front), c);
    InJoin(AllOf(front), FrameObs(n, last), c);
    InNonEmpty(AllOf(front), c);
    InNonEmpty(FrameObs(n, last), c);
    AllOfFrames(front);
    FrameObsIs(n, last);
    LastFrameSees(n, last, mine, c);
    assert FramesIn(before + mine) == FramesIn(before) + (if mine == [] then {} else {n});
    assert n !in FramesIn(before);
  }

  lemma LastFrameSees(n: nat, last: Frame, mine: seq<Obs>, c: set<Voxel>)
    requires forall o :: o in mine <==> o.frame == n && o.at in last && InRange(o.at) && VoxelOf(o.at) in c
    ensures mine != [] <==> Sees(multiset(last), c)
    ensures FramesIn(mine) == if mine == [] then {} else {n}
  {
    hide InRange, VoxelOf;
    if mine != [] {
      assert mine[0] in mine && mine[0].at in multiset(last);
    }
    if Sees(multiset(last), c) {
      var l :| l in multiset(last) && InRange(l) && VoxelOf(l) in c;
      assert Obs(n, l) in mine;
    }
  }

  /** How often a location occurs among the values of a component. */
  lemma {:induction false} LocationCount(frames: seq<Frame>, c: set<Voxel>, l: Location)
    ensures multiset(Locations(In(AllOf(frames), c)))[l]
         == if InRange(l) && VoxelOf(l) in c then Sum(Bags(frames), CountOf(l)) else 0
  {
    if frames == [] {
      assert Locations(In([], c)) == [];
    } else {
      var n, front, last := |frames| - 1, frames[..|frames| - 1], frames[|frames| - 1];
      LocationCount(front, c, l);
      FrameCount(n, last, c, l);
      assert Bags(frames)[..n] == Bags(front) && Bags(frames)[n] == multiset(last);
      hide InRange, VoxelOf, FrameObs, In, Locations, Bags;
      InJoin(AllOf(front), FrameObs(n, last), c);
      LocationsJoin(In(AllOf(front), c), In(FrameObs(n, last), c), l);
    }
  }

  lemma LocationsJoin(a: seq<Obs>, b: seq<Obs>, l: Location)
    ensures multiset(Locations(a + b))[l] == multiset(Locations(a))[l] + multiset(Locations(b))[l]
  {
    assert Locations(a + b) == Locations(a) + Locations(b);
  }

  lemma {:induction false} FrameCount(n: nat, points: Frame, c: set<Voxel>, l: Location)
    ensures multiset(Locations(In(FrameObs(n, points), c)))[l]
         == if InRange(l) && VoxelOf(l) in c then multiset(points)[l] else 0
  {
    hide InRange, VoxelOf;
    if points == [] {
      assert Locations(In([], c)) == [];
    } else {
      var front, last := points[..|points| - 1], points[|points| - 1];
      FrameCount(n, front, c, l);
      assert points == front + [last];
      var before := FrameObs(n, front);
      if InRange(last) {
        assert (before + [Obs(n, last)])[..|before|] == before;
        if VoxelOf(last) in c {
          assert Locations(In(before, c) + [Obs(n, last)]) == Locations(In(before, c)) + [last];
        }
      }
    }
  }

  /** Each component looks the same from reordered frames. */
  lemma SameCluster(a: seq<Frame>, b: seq<Frame>, c: set<Voxel>)
    requires SameUpToOrder(a, b) && In(AllOf(a), c) != [] && |a| > 0
    ensures In(AllOf(b), c) != [] && |a| == |b|
    ensures ClusterFrom(|a|, In(AllOf(a), c)) == ClusterFrom(|b|, In(AllOf(b), c))
  {
    assert |multiset(Bags(a))| == |a| && |multiset(Bags(b))| == |b|;
    SameFrameCount(a, b, c);
    SameLocations(a, b, c);
    hide In, AllOf, Shape, SameUpToOrder, Bags, FramesIn, Locations;
    SamePlaces(|a|, In(AllOf(a), c), In(AllOf(b), c));
  }

  lemma SamePlaces(total: nat, x: seq<Obs>, y: seq<Obs>)
    requires total > 0 && x != [] && |FramesIn(x)| == |FramesIn(y)| && multiset(Locations(x)) == multiset(Locations(y))
    ensures y != [] && ClusterFrom(total, x) == ClusterFrom(total, y)
  {
    hide Shape, FramesIn;
    assert |multiset(Locations(x))| == |x| && |multiset(Locations(y))| == |y|;
    ShapeUnordered(Locations(x), Locations(y), |FramesIn(x)| as real / total as real);
  }

  lemma SameFrameCount(a: seq<Frame>, b: seq<Frame>, c: set<Voxel>)
    requires SameUpToOrder(a, b)
    ensures |FramesIn(In(AllOf(a), c))| == |FramesIn(In(AllOf(b), c))|
  {
    hide In, AllOf, Sum, FramesIn;
    FramesSeen(a, c);
    FramesSeen(b, c);
    SumUnordered(Bags(a), Bags(b), SeesOne(c));
  }

  lemma SameLocations(a: seq<Frame>, b: seq<Frame>, c: set<Voxel>)
    requires SameUpToOrder(a, b)
    ensures multiset(Locations(In(AllOf(a), c))) == multiset(Locations(In(AllOf(b), c)))
  {
    hide In, AllOf, Sum, InRange, VoxelOf;
    var x, y := multiset(Locations(In(AllOf(a), c))), multiset(Locations(In(AllOf(b), c)));
    forall l ensures x[l] == y[l] {
      LocationCount(a, c, l);
      LocationCount(b, c, l);
      SumUnordered(Bags(a), Bags(b), CountOf(l));
    }
  }

  lemma SameVoxels(a: seq<Frame>, b: seq<Frame>)
    requires SameUpToOrder(a, b)
    ensures VoxelsOf(AllOf(a)) == VoxelsOf(AllOf(b))
  {
    hide AllOf, SameUpToOrder;
    forall v ensures v in VoxelsOf(AllOf(a)) <==> v in VoxelsOf(AllOf(b)) {
      SameLocations(a, b, {v});
      SeenIff(AllOf(a), v);
      SeenIff(AllOf(b), v);
    }
  }

  lemma SeenIff(all: seq<Obs>, v: Voxel)
    ensures v in VoxelsOf(all) <==> |multiset(Locations(In(all, {v})))| > 0
  {
    InNonEmpty(all, {v});
    assert |multiset(Locations(In(all, {v})))| == |In(all, {v})|;
    if v in VoxelsOf(all) {
      var o :| o in all && VoxelOf(o.at) == v;
      assert o in In(all, {v});
    }
    if |In(all, {v})| > 0 {
      assert In(all, {v})[0] in In(all, {v});
    }
  }

  lemma {:induction false} SameKept(a: seq<Frame>, b: seq<Frame>, cs: seq<set<Voxel>>)
    requires SameUpToOrder(a, b) && VoxelsOf(AllOf(a)) == VoxelsOf(AllOf(b))
    requires forall i | 0 <= i < |cs| :: cs[i] * VoxelsOf(AllOf(a)) != {}
    ensures Kept(|a|, AllOf(a), cs) == Kept(|b|, AllOf(b), cs)
  {
    if cs != [] {
      var c := cs[|cs| - 1];
      SameKept(a, b, cs[..|cs| - 1]);
      Occupied(AllOf(a), c);
      Occupied(AllOf(b), c);
      hide AllOf, In, ClusterFrom, SameUpToOrder;
      SameCluster(a, b, c);
    }
  }

  /** The final clusters do not depend on the order of frames, nor on the order of the points of a frame. */
  lemma OrderDoesNotMatter(a: seq<Frame>, b: seq<Frame>)
    requires SameUpToOrder(a, b)
    ensures ClustersOf(a) == ClustersOf(b)
  {
    SameVoxels(a, b);
    var voxels := VoxelsOf(AllOf(a));
    ComponentsOccupied(voxels);
    SameKept(a, b, ComponentsOf(voxels));
  }
}
