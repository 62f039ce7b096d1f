/**
 * clusterization/ClustersAnalyzer: the within-cluster sum of squares (WCSS) of a cluster and
 * its average over the clusterings of many positions, used to choose the number of clusters.
 */
module ClustersAnalyzer {
  import opened ClusterizationUtil
  import opened ValueClusterization

  /** `Math.pow(distance.compute(point, centroid), 2)`: the squared distance, (x − c)². */
  function SquaredDistance(p: StateClusterable, center: real): real
  {
    (p.value - center) * (p.value - center)
  }

  /** It is the square of the distance, never negative, and 0 only on the centroid. */
  lemma SquaredDistanceZero(p: StateClusterable, center: real)
    ensures SquaredDistance(p, center) == Distance(p, center) * Distance(p, center)
    ensures SquaredDistance(p, center) >= 0.0
    ensures SquaredDistance(p, center) == 0.0 <==> p.value == center
  {
    var e := p.value - center;
    assert (center - p.value) * (center - p.value) == e * e;
    if e > 0.0 {
      calc { SquaredDistance(p, center); == e * e; > 0.0; }
    } else if e < 0.0 {
      calc { SquaredDistance(p, center); == e * e; == (-e) * (-e); > 0.0; }
    }
  }

  /** The sum of the points' squared distances to the centroid. */
  function Wcss(points: seq<StateClusterable>, center: real): real
  {
    if points == [] then 0.0 else SquaredDistance(points[0], center) + Wcss(points[1..], center)
  }

  /** Adding one point adds exactly its squared distance. */
  lemma {:induction false} WcssAppend(points: seq<StateClusterable>, q: StateClusterable, center: real)
    ensures Wcss(points + [q], center) == Wcss(points, center) + SquaredDistance(q, center)
    decreases |points|
  {
    if points != [] {
      assert (points + [q])[1..] == points[1..] + [q];
      WcssAppend(points[1..], q, center);
    } else {
      assert [q][1..] == [];
    }
  }

  /** The WCSS is never negative, and it is 0 exactly when every point sits on the centroid. */
  lemma {:induction false} WcssZero(points: seq<StateClusterable>, center: real)
    ensures Wcss(points, center) >= 0.0
    ensures Wcss(points, center) == 0.0 <==> forall i :: 0 <= i < |points| ==> points[i].value == center
    decreases |points|
  {
    if points != [] {
      SquaredDistanceZero(points[0], center);
      WcssZero(points[1..], center);
      assert forall i :: 1 <= i < |points| ==> points[1..][i - 1] == points[i];
    }
  }

  /** `calculateWCSS(cluster)`. */
  method CalculateWcss(cluster: Cluster) returns (wcss: real)
    ensures wcss == Wcss(cluster.points, cluster.center)
  {
    wcss := 0.0;
    var centroid := cluster.center;
    for i := 0 to |cluster.points|
      invariant wcss == Wcss(cluster.points[..i], centroid)
    {
      var point := cluster.points[i];
      WcssAppend(cluster.points[..i], point, centroid);
      assert cluster.points[..i + 1] == cluster.points[..i] + [point];
      wcss := wcss + SquaredDistance(point, centroid);
    }
    assert cluster.points[..|cluster.points|] == cluster.points;
  }

  /** The WCSS of every cluster of one clustering, summed. */
  function ClusteringWcss(clusters: seq<Cluster>): real
  {
    if clusters == [] then 0.0
    else ClusteringWcss(clusters[..|clusters| - 1]) + Wcss(clusters[|clusters| - 1].points, clusters[|clusters| - 1].center)
  }

  /** The WCSS of every cluster of every position's clustering, summed. */
  function TotalWcss(clusterings: seq<seq<Cluster>>): real
  {
    if clusterings == [] then 0.0
    else TotalWcss(clusterings[..|clusterings| - 1]) + ClusteringWcss(clusterings[|clusterings| - 1])
  }

  lemma {:induction false} TotalWcssNonNegative(clusterings: seq<seq<Cluster>>)
    ensures TotalWcss(clusterings) >= 0.0
    decreases |clusterings|
  {
    if clusterings != [] {
      TotalWcssNonNegative(clusterings[..|clusterings| - 1]);
      ClusteringWcssNonNegative(clusterings[|clusterings| - 1]);
    }
  }

  lemma {:induction false} ClusteringWcssNonNegative(clusters: seq<Cluster>)
    ensures ClusteringWcss(clusters) >= 0.0
    decreases |clusters|
  {
    if clusters != [] {
      var c := clusters[|clusters| - 1];
      ClusteringWcssNonNegative(clusters[..|clusters| - 1]);
      WcssZero(c.points, c.center);
    }
  }

  /**
   * `calculateAverageWCSS(gameStates, clustersAmount)`: `clusterings[i]` is what the
   * k-means++ clusterer returns for the scored states one move after `gameStates[i]`.
   * The sum is divided by the number of positions times the number of clusters.
   */
  method CalculateAverageWcss(clusterings: seq<seq<Cluster>>, clustersAmount: int) returns (average: real)
    requires |clusterings| * clustersAmount != 0
    ensures average == TotalWcss(clusterings) / (|clusterings| * clustersAmount) as real
    ensures clustersAmount > 0 ==> average >= 0.0
  {
    var totalWcss := 0.0;
    for i := 0 to |clusterings|
      invariant totalWcss == TotalWcss(clusterings[..i])
    {
      var clusters := clusterings[i];
      assert clusterings[..i + 1][..i] == clusterings[..i];
      ghost var before := totalWcss;
      for j := 0 to |clusters|
        invariant totalWcss == before + ClusteringWcss(clusters[..j])
      {
        assert clusters[..j + 1][..j] == clusters[..j];
        var wcss := CalculateWcss(clusters[j]);
        totalWcss := totalWcss + wcss;
      }
      assert clusters[..|clusters|] == clusters;
    }
    assert clusterings[..|clusterings|] == clusterings;
    TotalWcssNonNegative(clusterings);
    average := totalWcss / (|clusterings| * clustersAmount) as real;
  }
}
