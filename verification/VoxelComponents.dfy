/**
 Connected groups of occupied voxels (sensors/radar_calibration.py,
 `_adjacent_voxels` and the worklist of `_point_clusters`).
 */
module VoxelComponents {
  import opened Wrappers

  datatype Voxel = Voxel(x: int, y: int, z: int)

  predicate Adjacent(a: Voxel, b: Voxel) {
    -1 <= b.x - a.x <= 1 && -1 <= b.y - a.y <= 1 && -1 <= b.z - a.z <= 1
  }

  /** The voxel and its 26 neighbours, in the order of the nested loops. */
  function AdjacentVoxels(v: Voxel): (r: seq<Voxel>)
    ensures |r| == 27
  {
    seq(27, i requires 0 <= i < 27 => Voxel(v.x + i / 9 - 1, v.y + i / 3 % 3 - 1, v.z + i % 3 - 1))
  }

  lemma AdjacentListed(v: Voxel, u: Voxel)
    ensures u in AdjacentVoxels(v) <==> Adjacent(v, u)
    ensures Adjacent(v, u) <==> v.x - 1 <= u.x <= v.x + 1 && v.y - 1 <= u.y <= v.y + 1 && v.z - 1 <= u.z <= v.z + 1
  {
    if Adjacent(v, u) {
      var i := (u.x - v.x + 1) * 9 + (u.y - v.y + 1) * 3 + (u.z - v.z + 1);
      assert i / 9 == u.x - v.x + 1 && i / 3 % 3 == u.y - v.y + 1 && i % 3 == u.z - v.z + 1;
      assert AdjacentVoxels(v)[i] == u;
    }
  }

  // --- Order ------------------------------------------------------------------------

  /** The order Python gives tuples. */
  predicate Precedes(a: Voxel, b: Voxel) {
    a.x < b.x || (a.x == b.x && (a.y < b.y || (a.y == b.y && a.z < b.z)))
  }

  predicate IsLeast(s: set<Voxel>, v: Voxel) {
    v in s && forall u | u in s && u != v :: Precedes(v, u)
  }

  method Least(s: set<Voxel>) returns (v: Voxel)
    requires s != {}
    ensures IsLeast(s, v)
  {
    v :| v in s;
    var rest := s - {v};
    while rest != {}
      invariant rest <= s && v in s
      invariant forall u | u in s && u !in rest && u != v :: Precedes(v, u)
      decreases |rest|
    {
      var u :| u in rest;
      if Precedes(u, v) {
        v := u;
      }
      rest := rest - {u};
    }
  }

  lemma {:induction false} LeastExists(s: set<Voxel>)
    requires s != {}
    ensures exists v :: IsLeast(s, v)
    decreases |s|
  {
    var u :| u in s;
    if s == {u} {
      assert IsLeast(s, u);
    } else {
      LeastExists(s - {u});
      var w :| IsLeast(s - {u}, w);
      var least := if Precedes(u, w) then u else w;
      forall x | x in s && x != least ensures Precedes(least, x) {
        assert x == u || x in s - {u};
      }
      assert IsLeast(s, least);
    }
  }

  ghost function LeastOf(s: set<Voxel>): (v: Voxel)
    requires s != {}
    ensures IsLeast(s, v)
  {
    LeastExists(s);
    var v :| IsLeast(s, v);
    v
  }

  // --- Connection -------------------------------------------------------------------

  /** A walk inside `s` between neighbours. */
  ghost predicate IsPath(s: set<Voxel>, p: seq<Voxel>) {
    && p != []
    && (forall i | 0 <= i < |p| :: p[i] in s)
    && (forall i | 0 <= i < |p| - 1 :: Adjacent(p[i], p[i + 1]))
  }

  ghost predicate Joins(s: set<Voxel>, p: seq<Voxel>, a: Voxel, b: Voxel) {
    IsPath(s, p) && p[0] == a && p[|p| - 1] == b
  }

  ghost predicate Connected(s: set<Voxel>, a: Voxel, b: Voxel) {
    exists p :: Joins(s, p, a, b)
  }

  ghost function ComponentOf(s: set<Voxel>, a: Voxel): set<Voxel> {
    set b | b in s && Connected(s, a, b)
  }

  lemma ConnectedSelf(s: set<Voxel>, a: Voxel)
    requires a in s
    ensures Connected(s, a, a)
  {
    assert Joins(s, [a], a, a);
  }

  lemma ConnectedStep(s: set<Voxel>, a: Voxel, b: Voxel, c: Voxel)
    requires Connected(s, a, b) && c in s && Adjacent(b, c)
    ensures Connected(s, a, c)
  {
    var p :| Joins(s, p, a, b);
    assert Joins(s, p + [c], a, c);
  }

  lemma ConnectedBack(s: set<Voxel>, a: Voxel, b: Voxel)
    requires Connected(s, a, b)
    ensures Connected(s, b, a) && a in s && b in s
  {
    var p :| Joins(s, p, a, b);
    var q := seq(|p|, i requires 0 <= i < |p| => p[|p| - 1 - i]);
    forall i | 0 <= i < |q| - 1 ensures Adjacent(q[i], q[i + 1]) {
      assert Adjacent(p[|p| - 2 - i], p[|p| - 2 - i + 1]);
    }
    assert Joins(s, q, b, a);
  }

  lemma ConnectedJoin(s: set<Voxel>, a: Voxel, b: Voxel, c: Voxel)
    requires Connected(s, a, b) && Connected(s, b, c)
    ensures Connected(s, a, c)
  {
    var p :| Joins(s, p, a, b);
    var q :| Joins(s, q, b, c);
    var r := p + q[1..];
    forall i | 0 <= i < |r| - 1 ensures Adjacent(r[i], r[i + 1]) {
      if i >= |p| - 1 {
        assert r[i] == q[i - (|p| - 1)] && r[i + 1] == q[i - (|p| - 1) + 1];
      }
    }
    assert Joins(s, r, a, c);
  }

  /** A set closed under neighbours cannot be left by walking. */
  lemma {:induction false} ClosedKeeps(s: set<Voxel>, inside: set<Voxel>, p: seq<Voxel>)
    requires IsPath(s, p) && p[0] in inside
    requires forall v, u | v in inside && u in s && Adjacent(v, u) :: u in inside
    ensures p[|p| - 1] in inside
    decreases |p|
  {
    if |p| > 1 {
      assert Adjacent(p[0], p[0 + 1]);
      ClosedKeeps(s, inside, p[1..]);
    }
  }

  /** What the worklist has gathered when it stops is the component of its start. */
  lemma GatheredIsComponent(s: set<Voxel>, start: Voxel, component: set<Voxel>)
    requires start in component && component <= s
    requires forall v | v in component :: Connected(s, start, v)
    requires forall v, u | v in component && u in s && Adjacent(v, u) :: u in component
    ensures component == ComponentOf(s, start)
  {
    forall b | b in ComponentOf(s, start) ensures b in component {
      var p :| Joins(s, p, start, b);
      ClosedKeeps(s, component, p);
    }
  }

  // --- The worklist -------------------------------------------------------------------

  /** One component: the start removed from the unvisited, then everything reachable from it. */
  method Gather(unvisited0: set<Voxel>, start: Voxel) returns (component: set<Voxel>, unvisited: set<Voxel>)
    requires start in unvisited0
    ensures component == ComponentOf(unvisited0, start)
    ensures unvisited == unvisited0 - component
  {
    unvisited := unvisited0 - {start};
    component := {start};
    var pending := [start];
    ConnectedSelf(unvisited0, start);
    while pending != []
      invariant component + unvisited == unvisited0 && component !! unvisited && start in component
      invariant forall v | v in component :: Connected(unvisited0, start, v)
      invariant forall v | v in pending :: v in component
      invariant forall v, u | v in component && v !in pending && u in unvisited :: !Adjacent(v, u)
      decreases |unvisited|, |pending|
    {
      var current := pending[|pending| - 1];
      ghost var before := pending;
      pending := pending[..|pending| - 1];
      assert before == pending + [current];
      component, unvisited, pending := Expand(unvisited0, start, component, unvisited, pending, current);
    }
    GatheredIsComponent(unvisited0, start, component);
  }

  /** The inner loop: neighbours of the current voxel move from unvisited to pending. */
  method Expand(ghost s: set<Voxel>, ghost start: Voxel, component0: set<Voxel>, unvisited0: set<Voxel>,
                pending0: seq<Voxel>, current: Voxel)
    returns (component: set<Voxel>, unvisited: set<Voxel>, pending: seq<Voxel>)
    requires component0 + unvisited0 == s && component0 !! unvisited0 && current in component0
    requires forall v | v in component0 :: Connected(s, start, v)
    requires forall v | v in pending0 :: v in component0
    requires forall v, u | v in component0 && v !in pending0 && v != current && u in unvisited0 :: !Adjacent(v, u)
    ensures component + unvisited == s && component !! unvisited && component0 <= component
    ensures forall v | v in component :: Connected(s, start, v)
    ensures forall v | v in pending :: v in component
    ensures forall v, u | v in component && v !in pending && u in unvisited :: !Adjacent(v, u)
    ensures (unvisited == unvisited0 && pending == pending0) || |unvisited| < |unvisited0|
  {
    hide Connected, Adjacent;
    component, unvisited, pending := component0, unvisited0, pending0;
    var neighbors := AdjacentVoxels(current);
    for i := 0 to |neighbors|
      invariant component + unvisited == s && component !! unvisited && component0 <= component
      invariant forall v | v in component :: Connected(s, start, v)
      invariant forall v | v in pending :: v in component
      invariant forall v | v in pending0 :: v in pending
      invariant forall v | v in component && v !in pending :: v in component0 && v !in pending0
      invariant unvisited <= unvisited0 && (unvisited == unvisited0 ==> pending == pending0)
      invariant forall j | 0 <= j < i :: neighbors[j] !in unvisited
    {
      var neighbor := neighbors[i];
      if neighbor in unvisited {
        AdjacentListed(current, neighbor);
        ConnectedStep(s, start, current, neighbor);
        unvisited := unvisited - {neighbor};
        component := component + {neighbor};
        pending := pending + [neighbor];
      }
    }
    forall u | u in unvisited ensures !Adjacent(current, u) {
      AdjacentListed(current, u);
    }
    if unvisited != unvisited0 {
      Fewer(unvisited, unvisited0);
    }
  }

  lemma Fewer(a: set<Voxel>, b: set<Voxel>)
    requires a < b
    ensures |a| < |b|
  {
    var x :| x in b && x !in a;
    assert b == a + (b - a) && |b| == |a| + |b - a|;
  }

  /** The components in the order of their least voxels. */
  ghost function ComponentsOf(s: set<Voxel>): seq<set<Voxel>>
    decreases |s|
  {
    if s == {} then []
    else
      var start := LeastOf(s);
      ConnectedSelf(s, start);
      Fewer(s - ComponentOf(s, start), s);
      [ComponentOf(s, start)] + ComponentsOf(s - ComponentOf(s, start))
  }

  /** The outer loop: a component from the least unvisited voxel until none is left. */
  method FindComponents(occupied: set<Voxel>) returns (components: seq<set<Voxel>>)
    ensures components == ComponentsOf(occupied)
  {
    var unvisited := occupied;
    components := [];
    while unvisited != {}
      invariant unvisited <= occupied
      invariant components + ComponentsOf(unvisited) == ComponentsOf(occupied)
      decreases |unvisited|
    {
      var start := Least(unvisited);
      assert start == LeastOf(unvisited);
      ConnectedSelf(unvisited, start);
      ghost var before := unvisited;
      var component;
      component, unvisited := Gather(unvisited, start);
      Fewer(unvisited, before);
      assert components + ComponentsOf(before) == components + [component] + ComponentsOf(unvisited);
      components := components + [component];
    }
  }

  // --- What the components are ----------------------------------------------------------

  /** Removing a component does not change how the rest is connected. */
  lemma RestConnected(s: set<Voxel>, start: Voxel, a: Voxel, b: Voxel)
    requires start in s && a in s - ComponentOf(s, start)
    ensures Connected(s, a, b) <==> Connected(s - ComponentOf(s, start), a, b)
  {
    var rest := s - ComponentOf(s, start);
    if Connected(s, a, b) {
      var p :| Joins(s, p, a, b);
      forall i | 0 <= i < |p| ensures p[i] in rest {
        PrefixConnected(s, p, i);
        if Connected(s, start, p[i]) {
          ConnectedBack(s, a, p[i]);
          ConnectedJoin(s, start, p[i], a);
        }
      }
      assert Joins(rest, p, a, b);
    }
    if Connected(rest, a, b) {
      var p :| Joins(rest, p, a, b);
      assert Joins(s, p, a, b);
    }
  }

  lemma PrefixConnected(s: set<Voxel>, p: seq<Voxel>, i: nat)
    requires IsPath(s, p) && i < |p|
    ensures Connected(s, p[0], p[i])
  {
    assert Joins(s, p[..i + 1], p[0], p[i]);
  }

  ghost predicate Covers(s: set<Voxel>, cs: seq<set<Voxel>>) {
    forall v | v in s :: exists i | 0 <= i < |cs| :: v in cs[i]
  }

  ghost predicate Classes(s: set<Voxel>, cs: seq<set<Voxel>>) {
    forall i, v | 0 <= i < |cs| && v in cs[i] :: v in s && cs[i] == ComponentOf(s, v)
  }

  ghost predicate Disjoint(cs: seq<set<Voxel>>) {
    && (forall i | 0 <= i < |cs| :: cs[i] != {})
    && (forall i, j | 0 <= i < j < |cs| :: cs[i] !! cs[j])
  }

  /**
   The worklist returns exactly the connected components: every occupied voxel
   is in one, a component holds precisely what is connected to each of its
   voxels, and no two share a voxel.
   */
  lemma {:induction false} ComponentsAreClasses(s: set<Voxel>)
    ensures Covers(s, ComponentsOf(s)) && Classes(s, ComponentsOf(s)) && Disjoint(ComponentsOf(s))
    decreases |s|
  {
    if s != {} {
      var start := LeastOf(s);
      ConnectedSelf(s, start);
      var rest := s - ComponentOf(s, start);
      assert start !in rest;
      Fewer(rest, s);
      assert ComponentsOf(s) == [ComponentOf(s, start)] + ComponentsOf(rest);
      hide *;
      ComponentsAreClasses(rest);
      CoversMore(s, ComponentOf(s, start), ComponentsOf(rest));
      ClassesMore(s, start, ComponentsOf(rest));
      DisjointMore(s, start, ComponentsOf(rest));
    }
  }

  lemma DisjointMore(s: set<Voxel>, start: Voxel, ds: seq<set<Voxel>>)
    requires start in s && Classes(s - ComponentOf(s, start), ds) && Disjoint(ds)
    ensures Disjoint([ComponentOf(s, start)] + ds)
  {
    ConnectedSelf(s, start);
    hide Connected;
    var first := ComponentOf(s, start);
    assert start in first;
    forall j | 0 <= j < |ds| ensures first !! ds[j] {
      forall v | v in ds[j] ensures v !in first {
      }
    }
  }

  lemma CoversMore(s: set<Voxel>, first: set<Voxel>, ds: seq<set<Voxel>>)
    requires Covers(s - first, ds)
    ensures Covers(s, [first] + ds)
  {
    var cs := [first] + ds;
    forall v | v in s ensures exists i | 0 <= i < |cs| :: v in cs[i] {
      if v in first {
        assert v in cs[0];
      } else {
        assert v in s - first;
        var i :| 0 <= i < |ds| && v in ds[i];
        assert v in cs[i + 1];
      }
    }
  }

  lemma ClassesMore(s: set<Voxel>, start: Voxel, ds: seq<set<Voxel>>)
    requires start in s && Classes(s - ComponentOf(s, start), ds)
    ensures Classes(s, [ComponentOf(s, start)] + ds)
  {
    hide Connected;
    var cs := [ComponentOf(s, start)] + ds;
    forall i, v | 0 <= i < |cs| && v in cs[i] ensures v in s && cs[i] == ComponentOf(s, v) {
      if i == 0 {
        SameClass(s, start, v);
      } else {
        assert v in ds[i - 1];
        RestClass(s, start, v);
      }
    }
  }

  lemma SameClass(s: set<Voxel>, a: Voxel, b: Voxel)
    requires Connected(s, a, b)
    ensures ComponentOf(s, a) == ComponentOf(s, b)
  {
    ConnectedBack(s, a, b);
    forall c | c in s ensures Connected(s, a, c) <==> Connected(s, b, c) {
      if Connected(s, a, c) {
        ConnectedJoin(s, b, a, c);
      }
      if Connected(s, b, c) {
        ConnectedJoin(s, a, b, c);
      }
    }
  }

  lemma RestClass(s: set<Voxel>, start: Voxel, v: Voxel)
    requires start in s && v in s - ComponentOf(s, start)
    ensures ComponentOf(s - ComponentOf(s, start), v) == ComponentOf(s, v)
  {
    var rest := s - ComponentOf(s, start);
    forall c | c in s ensures c in ComponentOf(rest, v) <==> c in ComponentOf(s, v) {
      RestConnected(s, start, v, c);
      if Connected(rest, v, c) {
        ConnectedBack(rest, v, c);
      }
    }
  }
}
