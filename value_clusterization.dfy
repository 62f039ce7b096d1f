/**
 * clusterization/ValueClusterization: choosing representatives from the clusters that the
 * k-means++ clusterer returns. A cluster's points are sorted in place by their distance to
 * the centroid (a stable sort), its first `amount` states are taken, and each cluster is
 * asked for a share of the representatives proportional to its size, rounded half up.
 */
module ValueClusterization {
  import opened Wrappers
  import opened MovementBotUtil
  import opened ClusterizationUtil

  /** A CentroidCluster: its points and its centroid's single coordinate. */
  datatype Cluster = Cluster(points: seq<StateClusterable>, center: real)

  /** The one-dimensional Euclidean distance between a point and the centroid. */
  function Distance(p: StateClusterable, center: real): (d: real)
    ensures d >= 0.0
    ensures d == p.value - center || d == center - p.value
  {
    if p.value >= center then p.value - center else center - p.value
  }

  predicate SortedByDistance(s: seq<StateClusterable>, center: real)
  {
    forall i, j :: 0 <= i < j < |s| ==> Distance(s[i], center) <= Distance(s[j], center)
  }

  /** The points at distance `d`, in order: stability means a sort keeps these subsequences. */
  function AtDistance(s: seq<StateClusterable>, center: real, d: real): seq<StateClusterable>
  {
    if s == [] then []
    else AtDistance(s[..|s| - 1], center, d) + (if Distance(s[|s| - 1], center) == d then [s[|s| - 1]] else [])
  }

  /** Insert `x` after every point no farther than it: the step of a stable insertion sort. */
  function Insert(x: StateClusterable, s: seq<StateClusterable>, center: real): (r: seq<StateClusterable>)
    ensures |r| == |s| + 1
  {
    if s == [] || Distance(s[|s| - 1], center) <= Distance(x, center) then s + [x]
    else Insert(x, s[..|s| - 1], center) + [s[|s| - 1]]
  }

  /** `list.sort(comparingDouble(distance))`: the points ordered nearest first, ties in input order. */
  function SortByDistance(s: seq<StateClusterable>, center: real): (r: seq<StateClusterable>)
    ensures |r| == |s|
  {
    if s == [] then [] else Insert(s[|s| - 1], SortByDistance(s[..|s| - 1], center), center)
  }

  /** Inserting adds `x` to the points, as a multiset. */
  lemma {:induction false} InsertPermutes(x: StateClusterable, s: seq<StateClusterable>, center: real)
    ensures multiset(Insert(x, s, center)) == multiset(s) + multiset{x}
    decreases |s|
  {
    if !(s == [] || Distance(s[|s| - 1], center) <= Distance(x, center)) {
      var init := s[..|s| - 1];
      assert s == init + [s[|s| - 1]];
      InsertPermutes(x, init, center);
    }
  }

  /** Inserting adds `x` after the points at its own distance and leaves the others' order alone. */
  lemma {:induction false} InsertKeepsTies(x: StateClusterable, s: seq<StateClusterable>, center: real, d: real)
    ensures AtDistance(Insert(x, s, center), center, d) ==
      AtDistance(s, center, d) + (if Distance(x, center) == d then [x] else [])
    decreases |s|
  {
    var r := Insert(x, s, center);
    if s == [] || Distance(s[|s| - 1], center) <= Distance(x, center) {
      assert r[..|r| - 1] == s;
    } else {
      var init := s[..|s| - 1];
      var last := s[|s| - 1];
      InsertKeepsTies(x, init, center, d);
      var ins := Insert(x, init, center);
      assert r == ins + [last] && r[..|r| - 1] == ins;
    }
  }

  /** Inserting into points ordered by distance keeps them ordered. */
  lemma {:induction false} InsertSorted(x: StateClusterable, s: seq<StateClusterable>, center: real)
    requires SortedByDistance(s, center)
    ensures SortedByDistance(Insert(x, s, center), center)
    decreases |s|
  {
    var r := Insert(x, s, center);
    if s == [] || Distance(s[|s| - 1], center) <= Distance(x, center) {
      assert r == s + [x];
    } else {
      var init := s[..|s| - 1];
      var last := s[|s| - 1];
      assert SortedByDistance(init, center);
      InsertSorted(x, init, center);
      InsertPermutes(x, init, center);
      var ins := Insert(x, init, center);
      assert r == ins + [last];
      forall i | 0 <= i < |ins|
        ensures Distance(ins[i], center) <= Distance(last, center)
      {
        assert ins[i] in multiset(ins);
        if ins[i] != x {
          assert ins[i] in multiset(init);
          var k :| 0 <= k < |init| && init[k] == ins[i];
          assert s[k] == init[k];
        }
      }
    }
  }

  /**
   * The sort is a stable sort: its result is ordered by distance, is a permutation of the
   * points, and keeps the points at each distance in their original order.
   */
  lemma {:induction false} SortByDistanceIsStableSort(s: seq<StateClusterable>, center: real)
    ensures SortedByDistance(SortByDistance(s, center), center)
    ensures multiset(SortByDistance(s, center)) == multiset(s)
    ensures forall d :: AtDistance(SortByDistance(s, center), center, d) == AtDistance(s, center, d)
    decreases |s|
  {
    if s != [] {
      var init := s[..|s| - 1];
      assert s == init + [s[|s| - 1]];
      SortByDistanceIsStableSort(init, center);
      InsertSorted(s[|s| - 1], SortByDistance(init, center), center);
      InsertPermutes(s[|s| - 1], SortByDistance(init, center), center);
      forall d
        ensures AtDistance(SortByDistance(s, center), center, d) == AtDistance(s, center, d)
      {
        InsertKeepsTies(s[|s| - 1], SortByDistance(init, center), center, d);
      }
    }
  }

  /** One outer step of the in-place insertion sort. */
  lemma SortByDistanceStep(s: seq<StateClusterable>, i: nat, center: real)
    requires i < |s|
    ensures SortByDistance(s[..i + 1], center) == Insert(s[i], SortByDistance(s[..i], center), center)
  {
    assert s[..i + 1][..i] == s[..i];
  }

  /** One pass of the in-place insertion sort: `a[i]` moves down into the ordered `a[..i]`. */
  method InsertAt(a: array<StateClusterable>, i: nat, center: real)
    requires i < a.Length
    modifies a
    ensures a[..i + 1] == Insert(old(a[i]), old(a[..i]), center)
    ensures forall k :: i < k < a.Length ==> a[k] == old(a[k])
  {
    ghost var p := a[..i];
    var x := a[i];
    var dx := Distance(x, center);
    var j := i;
    while j > 0 && Distance(a[j - 1], center) > dx
      invariant 0 <= j <= i
      invariant forall k :: 0 <= k < j ==> a[k] == p[k]
      invariant forall k :: j < k <= i ==> a[k] == p[k - 1]
      invariant forall k :: i < k < a.Length ==> a[k] == old(a[k])
      invariant forall k :: j <= k < i ==> Distance(p[k], center) > dx
    {
      a[j] := a[j - 1];
      j := j - 1;
    }
    InsertSplit(x, p, j, center);
    a[j] := x;
    Assembled(a[..i + 1], p, x, j);
  }

  /** Inserting stops in front of the first point, from the right, that is no farther than `x`. */
  lemma InsertStops(x: StateClusterable, p: seq<StateClusterable>, j: nat, center: real)
    requires j <= |p| && (j == 0 || Distance(p[j - 1], center) <= Distance(x, center))
    ensures Insert(x, p[..j], center) == p[..j] + [x]
  {
    if j > 0 {
      assert p[..j][|p[..j]| - 1] == p[j - 1];
    }
  }

  /** `x` goes right after the last point no farther than it, when every later point is farther. */
  lemma {:induction false} InsertSplit(x: StateClusterable, p: seq<StateClusterable>, j: nat, center: real)
    requires j <= |p| && (j == 0 || Distance(p[j - 1], center) <= Distance(x, center))
    requires forall k :: j <= k < |p| ==> Distance(p[k], center) > Distance(x, center)
    ensures Insert(x, p, center) == p[..j] + [x] + p[j..]
    decreases |p|
  {
    if |p| == j {
      InsertStops(x, p, j, center);
      assert p[..j] == p && p[j..] == [];
    } else {
      var init := p[..|p| - 1];
      assert forall k :: j <= k < |init| ==> init[k] == p[k];
      assert j > 0 ==> init[j - 1] == p[j - 1];
      InsertSplit(x, init, j, center);
      assert init[..j] == p[..j];
      assert init[j..] + [p[|p| - 1]] == p[j..];
    }
  }

  /** A sequence that agrees with `p` before `j`, holds `x` at `j` and `p` shifted after it. */
  lemma Assembled(q: seq<StateClusterable>, p: seq<StateClusterable>, x: StateClusterable, j: nat)
    requires j <= |p| && |q| == |p| + 1 && q[j] == x
    requires forall k :: 0 <= k < j ==> q[k] == p[k]
    requires forall k :: j < k < |q| ==> q[k] == p[k - 1]
    ensures q == p[..j] + [x] + p[j..]
  {
    var r := p[..j] + [x] + p[j..];
    assert |q| == |r|;
    forall k | 0 <= k < |q|
      ensures q[k] == r[k]
    {
      if k < j {
      } else if k == j {
      } else {
        assert r[k] == p[j..][k - j - 1];
      }
    }
  }

  /** `statesClusterable.sort(...)` on the cluster's own list, as an in-place insertion sort. */
  method SortPoints(a: array<StateClusterable>, center: real)
    modifies a
    ensures a[..] == SortByDistance(old(a[..]), center)
  {
    ghost var orig := a[..];
    for i := 0 to a.Length
      invariant a[..i] == SortByDistance(orig[..i], center)
      invariant forall k :: i <= k < a.Length ==> a[k] == orig[k]
    {
      InsertAt(a, i, center);
      SortByDistanceStep(orig, i, center);
    }
    assert orig[..a.Length] == orig;
  }

  /** `pickRepresentativesFromCluster` on the cluster's points as they were before the sort. */
  function FromCluster(points: seq<StateClusterable>, center: real, amount: int): Result<seq<State>>
  {
    if points == [] then Success([])
    else if amount < 0 || amount > |points| then Failure
    else Success(StatesOf(SortByDistance(points, center)[..amount]))
  }

  /**
   * An empty cluster gives no states whatever the amount; otherwise an amount in
   * [0, size] gives exactly that many states, the nearest to the centroid, and any other
   * amount makes `subList` throw.
   */
  lemma FromClusterNearest(points: seq<StateClusterable>, center: real, amount: int)
    ensures points == [] ==> FromCluster(points, center, amount) == Success([])
    ensures points != [] ==> (FromCluster(points, center, amount).Success? <==> 0 <= amount <= |points|)
    ensures points != [] && 0 <= amount <= |points| ==>
      var sorted := SortByDistance(points, center);
      |FromCluster(points, center, amount).value| == amount &&
      (forall i :: 0 <= i < amount ==> FromCluster(points, center, amount).value[i] == sorted[i].state) &&
      (forall i, j :: 0 <= i < amount <= j < |points| ==> Distance(sorted[i], center) <= Distance(sorted[j], center)) &&
      multiset(sorted) == multiset(points) &&
      (forall d :: AtDistance(sorted, center, d) == AtDistance(points, center, d))
  {
    SortByDistanceIsStableSort(points, center);
  }

  /** Every state picked from a cluster is the state of one of its points. */
  lemma FromClusterMembers(points: seq<StateClusterable>, center: real, amount: int)
    requires FromCluster(points, center, amount).Success?
    ensures forall x :: x in FromCluster(points, center, amount).value ==> exists p :: p in points && p.state == x
  {
    if points != [] {
      var sorted := SortByDistance(points, center);
      SortByDistanceIsStableSort(points, center);
      forall x | x in FromCluster(points, center, amount).value
        ensures exists p :: p in points && p.state == x
      {
        var i :| 0 <= i < amount && FromCluster(points, center, amount).value[i] == x;
        assert sorted[..amount][i] == sorted[i];
        assert sorted[i] in multiset(points);
      }
    }
  }

  /** `pickRepresentativesFromCluster(cluster, amount)`; the cluster's list is left sorted. */
  method PickRepresentativesFromCluster(points: array<StateClusterable>, center: real, amount: int) returns (r: Result<seq<State>>)
    modifies points
    ensures r == FromCluster(old(points[..]), center, amount)
    ensures points[..] == SortByDistance(old(points[..]), center)
  {
    ghost var orig := points[..];
    if points.Length == 0 {
      assert orig == [];
      return Success([]);
    }
    SortPoints(points, center);
    ghost var sorted := points[..];
    assert sorted == SortByDistance(orig, center);
    if amount < 0 || amount > points.Length {
      return Failure;
    }
    var states := StatesOf(points[..]);
    StatesOfPrefix(sorted, amount);
    r := Success(states[..amount]);
  }

  /** Unwrapping a prefix of the points gives the same prefix of their states. */
  lemma StatesOfPrefix(points: seq<StateClusterable>, n: nat)
    requires n <= |points|
    ensures StatesOf(points)[..n] == StatesOf(points[..n])
  {
    var a, b := StatesOf(points)[..n], StatesOf(points[..n]);
    assert |a| == |b|;
    forall i | 0 <= i < n
      ensures a[i] == b[i]
    {
    }
  }

  /** Java's `(int) Math.round(x)` for a non-NaN `x`: the nearest integer, halves rounded up. */
  function Round(x: real): int
  {
    (x + 0.5).Floor
  }

  /**
   * The number of representatives asked of a cluster of `size` points out of `total`.
   * With `total == 0` the quotient is NaN and `Math.round` gives 0.
   */
  function Share(size: nat, total: nat, amount: int): int
  {
    if total == 0 then 0 else Round(size as real / total as real * amount as real)
  }

  function Sizes(clusters: seq<Cluster>): nat
  {
    if clusters == [] then 0 else Sizes(clusters[..|clusters| - 1]) + |clusters[|clusters| - 1].points|
  }

  /** The representatives of the clusters in order, each cluster asked for its share of `total`. */
  function Collect(clusters: seq<Cluster>, total: nat, amount: int): Result<seq<State>>
  {
    if clusters == [] then Success([])
    else
      var c := clusters[|clusters| - 1];
      match (Collect(clusters[..|clusters| - 1], total, amount), FromCluster(c.points, c.center, Share(|c.points|, total, amount)))
      case (Success(init), Success(last)) => Success(init + last)
      case _ => Failure
  }

  /** `pickRepresentatives(clusters, amount)`. */
  function Representatives(clusters: seq<Cluster>, amount: int): Result<seq<State>>
  {
    Collect(clusters, Sizes(clusters), amount)
  }

  method PickRepresentatives(clusters: seq<Cluster>, amount: int) returns (r: Result<seq<State>>)
    ensures r == Representatives(clusters, amount)
  {
    var summaryStatesAmount := 0;
    for i := 0 to |clusters|
      invariant summaryStatesAmount == Sizes(clusters[..i])
    {
      assert clusters[..i + 1][..i] == clusters[..i];
      summaryStatesAmount := summaryStatesAmount + |clusters[i].points|;
    }
    assert clusters[..|clusters|] == clusters;
    var representatives: seq<State> := [];
    for i := 0 to |clusters|
      invariant Collect(clusters[..i], summaryStatesAmount, amount) == Success(representatives)
    {
      var centroidCluster := clusters[i];
      assert clusters[..i + 1][..i] == clusters[..i];
      var clusterRepresentativesAmount := Share(|centroidCluster.points|, summaryStatesAmount, amount);
      var centroidRepresentatives := FromCluster(centroidCluster.points, centroidCluster.center, clusterRepresentativesAmount);
      if centroidRepresentatives.Failure? {
        CollectFailureSticks(clusters, i + 1, summaryStatesAmount, amount);
        return Failure;
      }
      representatives := representatives + centroidRepresentatives.value;
    }
    r := Success(representatives);
  }

  lemma {:induction false} CollectFailureSticks(clusters: seq<Cluster>, n: nat, total: nat, amount: int)
    requires 0 < n <= |clusters| && Collect(clusters[..n], total, amount) == Failure
    ensures Collect(clusters, total, amount) == Failure
    decreases |clusters| - n
  {
    if n < |clusters| {
      assert clusters[..n + 1][..n] == clusters[..n];
      CollectFailureSticks(clusters, n + 1, total, amount);
    } else {
      assert clusters[..n] == clusters;
    }
  }

  /** A cluster's share lies in [0, size] when the amount lies in [0, total]. */
  lemma ShareWithinSize(size: nat, total: nat, amount: int)
    requires size <= total && 0 <= amount <= total
    ensures 0 <= Share(size, total, amount) <= size
  {
    if total > 0 {
      var x := size as real / total as real * amount as real;
      assert x == size as real * (amount as real / total as real);
      assert amount as real / total as real <= 1.0;
      assert x <= size as real;
      assert 0.0 <= x;
    }
  }

  /**
   * Collection succeeds exactly when every non-empty cluster's share lies in [0, size];
   * it then returns the sum of the non-empty clusters' shares.
   */
  lemma {:induction false} CollectSucceeds(clusters: seq<Cluster>, total: nat, amount: int)
    ensures Collect(clusters, total, amount).Success? <==>
      forall i :: 0 <= i < |clusters| && clusters[i].points != [] ==> 0 <= Share(|clusters[i].points|, total, amount) <= |clusters[i].points|
    ensures Collect(clusters, total, amount).Success? ==>
      |Collect(clusters, total, amount).value| == NonEmptyShares(clusters, total, amount)
    decreases |clusters|
  {
    if clusters != [] {
      var init := clusters[..|clusters| - 1];
      CollectSucceeds(init, total, amount);
      assert forall i :: 0 <= i < |init| ==> init[i] == clusters[i];
    }
  }

  /** The shares of the non-empty clusters, summed. */
  function NonEmptyShares(clusters: seq<Cluster>, total: nat, amount: int): int
  {
    if clusters == [] then 0
    else
      var c := clusters[|clusters| - 1];
      NonEmptyShares(clusters[..|clusters| - 1], total, amount) + (if c.points == [] then 0 else Share(|c.points|, total, amount))
  }

  /** Every cluster is no larger than the clusters together. */
  lemma {:induction false} SizesBound(clusters: seq<Cluster>, i: nat)
    requires i < |clusters|
    ensures |clusters[i].points| <= Sizes(clusters)
    decreases |clusters|
  {
    if i < |clusters| - 1 {
      SizesBound(clusters[..|clusters| - 1], i);
    }
  }

  /**
   * When the amount asked for lies in [0, Σ size] every cluster can afford its share, so
   * picking succeeds, with the sum of the non-empty clusters' shares.
   */
  lemma RepresentativesSucceed(clusters: seq<Cluster>, amount: int)
    requires 0 <= amount <= Sizes(clusters)
    ensures Representatives(clusters, amount).Success?
    ensures |Representatives(clusters, amount).value| == NonEmptyShares(clusters, Sizes(clusters), amount)
  {
    forall i | 0 <= i < |clusters| && clusters[i].points != []
      ensures 0 <= Share(|clusters[i].points|, Sizes(clusters), amount) <= |clusters[i].points|
    {
      SizesBound(clusters, i);
      ShareWithinSize(|clusters[i].points|, Sizes(clusters), amount);
    }
    CollectSucceeds(clusters, Sizes(clusters), amount);
  }

  /** Every representative is the state of a point of one of the clusters. */
  lemma {:induction false} CollectMembers(clusters: seq<Cluster>, total: nat, amount: int)
    requires Collect(clusters, total, amount).Success?
    ensures forall x :: x in Collect(clusters, total, amount).value ==>
      exists i, p :: 0 <= i < |clusters| && p in clusters[i].points && p.state == x
    decreases |clusters|
  {
    if clusters != [] {
      var init := clusters[..|clusters| - 1];
      var c := clusters[|clusters| - 1];
      var share := Share(|c.points|, total, amount);
      CollectMembers(init, total, amount);
      FromClusterMembers(c.points, c.center, share);
      forall x | x in Collect(clusters, total, amount).value
        ensures exists i, p :: 0 <= i < |clusters| && p in clusters[i].points && p.state == x
      {
        if x in Collect(init, total, amount).value {
          var i, p :| 0 <= i < |init| && p in init[i].points && p.state == x;
          assert clusters[i] == init[i];
        } else {
          assert x in FromCluster(c.points, c.center, share).value;
          var p :| p in c.points && p.state == x;
          assert clusters[|clusters| - 1] == c;
        }
      }
    }
  }

  /** A one-point cluster gives its state when asked for one, nothing when asked for none. */
  lemma SingletonCluster(p: StateClusterable, center: real)
    ensures FromCluster([p], center, 1) == Success([p.state])
    ensures FromCluster([p], center, 0) == Success([])
  {
    assert [p][..0] == [] && [p][..1] == [p];
    assert SortByDistance([], center) == [];
    assert Insert(p, [], center) == [p];
    assert SortByDistance([p], center) == [p];
    assert StatesOf([]) == [];
    assert StatesOf([p]) == [p.state];
  }

  /** Collecting one more cluster appends that cluster's representatives. */
  lemma CollectSnoc(clusters: seq<Cluster>, c: Cluster, total: nat, amount: int, init: seq<State>, last: seq<State>)
    requires Collect(clusters, total, amount) == Success(init)
    requires FromCluster(c.points, c.center, Share(|c.points|, total, amount)) == Success(last)
    ensures Collect(clusters + [c], total, amount) == Success(init + last)
  {
    assert (clusters + [c])[..|clusters|] == clusters;
  }

  /**
   * Rounding can overshoot: three singleton clusters asked for two representatives give
   * each a share of round(2/3) = 1, so three states come back.
   */
  lemma RoundingOvershoots(p1: StateClusterable, p2: StateClusterable, p3: StateClusterable)
    ensures Representatives([Cluster([p1], 0.0), Cluster([p2], 0.0), Cluster([p3], 0.0)], 2) ==
      Success([p1.state, p2.state, p3.state])
  {
    var c1, c2, c3 := Cluster([p1], 0.0), Cluster([p2], 0.0), Cluster([p3], 0.0);
    assert [] + [c1] == [c1] && [c1] + [c2] == [c1, c2] && [c1, c2] + [c3] == [c1, c2, c3];
    assert [c1, c2, c3][..2] == [c1, c2] && [c1, c2][..1] == [c1] && [c1][..0] == [];
    assert Sizes([c1]) == 1;
    assert Sizes([c1, c2]) == 2;
    assert Sizes([c1, c2, c3]) == 3;
    assert Share(1, 3, 2) == 1;
    SingletonCluster(p1, 0.0);
    SingletonCluster(p2, 0.0);
    SingletonCluster(p3, 0.0);
    CollectSnoc([], c1, 3, 2, [], [p1.state]);
    CollectSnoc([c1], c2, 3, 2, [p1.state], [p2.state]);
    assert [p1.state] + [p2.state] == [p1.state, p2.state];
    assert [p1.state, p2.state] + [p3.state] == [p1.state, p2.state, p3.state];
    CollectSnoc([c1, c2], c3, 3, 2, [p1.state, p2.state], [p3.state]);
  }

  /** And it can undershoot: asked for one, the same clusters each get round(1/3) = 0. */
  lemma RoundingUndershoots(p1: StateClusterable, p2: StateClusterable, p3: StateClusterable)
    ensures Representatives([Cluster([p1], 0.0), Cluster([p2], 0.0), Cluster([p3], 0.0)], 1) == Success([])
  {
    var c1, c2, c3 := Cluster([p1], 0.0), Cluster([p2], 0.0), Cluster([p3], 0.0);
    assert [] + [c1] == [c1] && [c1] + [c2] == [c1, c2] && [c1, c2] + [c3] == [c1, c2, c3];
    assert [c1, c2, c3][..2] == [c1, c2] && [c1, c2][..1] == [c1] && [c1][..0] == [];
    assert Sizes([c1]) == 1;
    assert Sizes([c1, c2]) == 2;
    assert Sizes([c1, c2, c3]) == 3;
    assert Share(1, 3, 1) == 0;
    SingletonCluster(p1, 0.0);
    SingletonCluster(p2, 0.0);
    SingletonCluster(p3, 0.0);
    CollectSnoc([], c1, 3, 1, [], []);
    var none: seq<State> := [];
    assert none + none == none;
    CollectSnoc([c1], c2, 3, 1, [], []);
    CollectSnoc([c1, c2], c3, 3, 1, [], []);
  }
}
