/** Two-cluster k-means over min-max normalised feature vectors
    (kMeansClustering with its nested `normalize`). Distances are compared
    squared, which orders them as the square roots do. */
module Clustering {
  import opened Numbers
  import opened Features

  /** A normalised feature vector, or a centroid. */
  datatype Point = Point(energy: Num, pitch: Num, zcr: Num)

  /** At most this many assignment rounds are run. */
  const MaxRounds: nat := 10

  // ------------------------------------------------------ normalisation

  /** `Math.min(...values)`: NaN as soon as one value is NaN. */
  function MinOf(values: seq<Num>): Num
    requires |values| > 0
  {
    if |values| == 1 then values[0]
    else Min2(MinOf(values[..|values| - 1]), values[|values| - 1])
  }

  /** `Math.max(...values)`. */
  function MaxOf(values: seq<Num>): Num
    requires |values| > 0
  {
    if |values| == 1 then values[0]
    else Max2(MaxOf(values[..|values| - 1]), values[|values| - 1])
  }

  /** Over finite values the minimum and maximum are finite and bound every value. */
  lemma {:induction false} MinMaxBound(values: seq<Num>)
    requires |values| > 0 && AllFinite(values)
    ensures MinOf(values).Finite? && MaxOf(values).Finite?
    ensures forall i :: 0 <= i < |values| ==> MinOf(values).v <= values[i].v <= MaxOf(values).v
  {
    if |values| > 1 {
      MinMaxBound(values[..|values| - 1]);
      assert forall i :: 0 <= i < |values| - 1 ==> values[..|values| - 1][i] == values[i];
    }
  }

  /** Once one value is NaN, so are the minimum and the maximum. */
  lemma {:induction false} MinMaxOfNaN(values: seq<Num>)
    requires |values| > 0 && !AllFinite(values)
    ensures MinOf(values) == NaN && MaxOf(values) == NaN
  {
    if |values| > 1 && values[|values| - 1].Finite? {
      var prefix := values[..|values| - 1];
      assert !AllFinite(prefix) by {
        var k :| 0 <= k < |values| && !values[k].Finite?;
        assert prefix[k] == values[k];
      }
      MinMaxOfNaN(prefix);
    }
  }

  /** `(max - min) || 1`: a zero or NaN range is replaced by 1. */
  function Range(values: seq<Num>): (r: real)
    requires |values| > 0
    ensures r != 0.0
  {
    var diff := Sub(MaxOf(values), MinOf(values));
    if Truthy(diff) then diff.v else 1.0
  }

  /** `values.map(v => (v - min) / range)`. */
  function Normalize(values: seq<Num>): (r: seq<Num>)
    requires |values| > 0
    ensures |r| == |values|
    ensures !AllFinite(values) ==> forall i :: 0 <= i < |r| ==> r[i] == NaN
    ensures AllFinite(values) ==> forall i :: 0 <= i < |r| ==> r[i].Finite? && 0.0 <= r[i].v <= 1.0
    ensures AllFinite(values) ==>
      forall i, j :: 0 <= i < |r| && 0 <= j < |r| && values[i].v <= values[j].v ==> r[i].v <= r[j].v
    ensures AllFinite(values) && (forall i :: 0 <= i < |values| ==> values[i] == values[0]) ==>
      forall i :: 0 <= i < |r| ==> r[i] == Finite(0.0)
  {
    var lo, range := MinOf(values), Range(values);
    NormalizeFacts(values);
    ConstantMin(values);
    seq(|values|, i requires 0 <= i < |values| => DivBy(Sub(values[i], lo), range))
  }

  lemma NormalizeFacts(values: seq<Num>)
    requires |values| > 0
    ensures !AllFinite(values) ==> MinOf(values) == NaN
    ensures AllFinite(values) ==> MinOf(values).Finite?
    ensures AllFinite(values) ==>
      forall i :: 0 <= i < |values| ==> 0.0 <= (values[i].v - MinOf(values).v) / Range(values) <= 1.0
    ensures AllFinite(values) ==>
      forall i, j :: 0 <= i < |values| && 0 <= j < |values| && values[i].v <= values[j].v ==>
        (values[i].v - MinOf(values).v) / Range(values) <= (values[j].v - MinOf(values).v) / Range(values)
  {
    if AllFinite(values) {
      RangeFacts(values);
      var lo, range := MinOf(values).v, Range(values);
      forall i | 0 <= i < |values|
        ensures 0.0 <= (values[i].v - lo) / range <= 1.0
      {
        UnitRatio(values[i].v - lo, range);
      }
      forall i, j | 0 <= i < |values| && 0 <= j < |values| && values[i].v <= values[j].v
        ensures (values[i].v - lo) / range <= (values[j].v - lo) / range
      {
        RatioMonotone(values[i].v - lo, values[j].v - lo, range);
      }
    } else {
      MinMaxOfNaN(values);
    }
  }

  /** The minimum of a constant run of finite values is that value. */
  lemma ConstantMin(values: seq<Num>)
    requires |values| > 0
    ensures AllFinite(values) && (forall i :: 0 <= i < |values| ==> values[i] == values[0]) ==>
      MinOf(values) == values[0]
  {
    if AllFinite(values) {
      MinIsAValue(values);
    }
  }

  /** Over finite values every value lies between the minimum and the
      minimum plus the (substituted) range. */
  lemma RangeFacts(values: seq<Num>)
    requires |values| > 0 && AllFinite(values)
    ensures MinOf(values).Finite? && Range(values) > 0.0
    ensures forall i :: 0 <= i < |values| ==> 0.0 <= values[i].v - MinOf(values).v <= Range(values)
  {
    MinMaxBound(values);
    var lo, hi := MinOf(values).v, MaxOf(values).v;
    if hi - lo == 0.0 {
      assert forall i :: 0 <= i < |values| ==> values[i].v == lo;
    }
  }

  lemma UnitRatio(a: real, d: real)
    requires 0.0 <= a <= d && d > 0.0
    ensures 0.0 <= a / d <= 1.0
  {}

  lemma RatioMonotone(a: real, b: real, d: real)
    requires a <= b && d > 0.0
    ensures a / d <= b / d
  {}

  /** Over finite values the minimum is one of the values. */
  lemma {:induction false} MinIsAValue(values: seq<Num>)
    requires |values| > 0 && AllFinite(values)
    ensures exists k :: 0 <= k < |values| && MinOf(values) == values[k]
  {
    if |values| > 1 {
      var prefix := values[..|values| - 1];
      assert AllFinite(prefix) by {
        forall k | 0 <= k < |prefix| ensures prefix[k].Finite? { assert prefix[k] == values[k]; }
      }
      MinIsAValue(prefix);
      var k :| 0 <= k < |prefix| && MinOf(prefix) == prefix[k];
      assert prefix[k] == values[k];
      if MinOf(prefix).v <= values[|values| - 1].v {
        assert MinOf(values) == values[k];
      } else {
        assert MinOf(values) == values[|values| - 1];
      }
    } else {
      assert MinOf(values) == values[0];
    }
  }

  function Energies(fs: seq<FeatureVector>): seq<Num> {
    seq(|fs|, i requires 0 <= i < |fs| => fs[i].energy)
  }

  function Pitches(fs: seq<FeatureVector>): seq<Num> {
    seq(|fs|, i requires 0 <= i < |fs| => Finite(fs[i].pitch))
  }

  function Zcrs(fs: seq<FeatureVector>): seq<Num> {
    seq(|fs|, i requires 0 <= i < |fs| => fs[i].zcr)
  }

  /** The three dimensions normalised independently, zipped back into points. */
  function Points(fs: seq<FeatureVector>): (pts: seq<Point>)
    requires |fs| > 0
    ensures |pts| == |fs|
  {
    var e, p, z := Normalize(Energies(fs)), Normalize(Pitches(fs)), Normalize(Zcrs(fs));
    seq(|fs|, i requires 0 <= i < |fs| => Point(e[i], p[i], z[i]))
  }

  // ---------------------------------------------------------- assignment

  /** The squared Euclidean distance over the three normalised dimensions. */
  function DistSq(p: Point, c: Point): Num {
    Add(Add(Square(Sub(p.energy, c.energy)), Square(Sub(p.pitch, c.pitch))), Square(Sub(p.zcr, c.zcr)))
  }

  predicate Below(xs: seq<nat>, n: nat) {
    forall k :: 0 <= k < |xs| ==> xs[k] < n
  }

  predicate StrictlyIncreasing(xs: seq<nat>) {
    forall j, k :: 0 <= j < k < |xs| ==> xs[j] < xs[k]
  }

  /** `a` and `b` list every index below `n` exactly once between them, each
      in ascending order. */
  predicate IsPartition(a: seq<nat>, b: seq<nat>, n: nat) {
    && StrictlyIncreasing(a) && StrictlyIncreasing(b)
    && Below(a, n) && Below(b, n)
    && (forall i :: 0 <= i < n ==> (i in a <==> i !in b))
    && |a| + |b| == n
  }

  /** One assignment pass over the first `n` points: index i joins the first
      cluster only when it is STRICTLY nearer the first centroid. */
  function Assign(pts: seq<Point>, cA: Point, cB: Point, n: nat): (r: (seq<nat>, seq<nat>))
    requires n <= |pts|
    ensures Below(r.0, n) && Below(r.1, n) && |r.0| + |r.1| == n
  {
    if n == 0 then ([], [])
    else
      var (a, b) := Assign(pts, cA, cB, n - 1);
      if Less(DistSq(pts[n - 1], cA), DistSq(pts[n - 1], cB)) then (a + [n - 1], b)
      else (a, b + [n - 1])
  }

  /** An assignment pass partitions the indices, and index i is in the first
      cluster exactly when its distance to the first centroid is strictly
      smaller: ties, and NaN distances, go to the second cluster. */
  lemma {:induction false} AssignSpec(pts: seq<Point>, cA: Point, cB: Point, n: nat)
    requires n <= |pts|
    ensures IsPartition(Assign(pts, cA, cB, n).0, Assign(pts, cA, cB, n).1, n)
    ensures forall i :: 0 <= i < n ==>
      (i in Assign(pts, cA, cB, n).0 <==> Less(DistSq(pts[i], cA), DistSq(pts[i], cB)))
  {
    if n > 0 {
      AssignSpec(pts, cA, cB, n - 1);
      var (a, b) := Assign(pts, cA, cB, n - 1);
      PartitionExtend(a, b, n - 1);
      var r := Assign(pts, cA, cB, n);
      assert r == (a + [n - 1], b) || r == (a, b + [n - 1]);
      forall i | 0 <= i < n
        ensures i in r.0 <==> Less(DistSq(pts[i], cA), DistSq(pts[i], cB))
      {
        if i < n - 1 {
          assert i in r.0 <==> i in a;
        }
      }
    }
  }

  /** Adding the next index to either side keeps a partition. */
  lemma PartitionExtend(a: seq<nat>, b: seq<nat>, n: nat)
    requires IsPartition(a, b, n)
    ensures IsPartition(a + [n], b, n + 1) && IsPartition(a, b + [n], n + 1)
  {
    assert n !in a && n !in b;
  }

  predicate Ties(pts: seq<Point>, cA: Point, cB: Point) {
    forall i :: 0 <= i < |pts| ==> !Less(DistSq(pts[i], cA), DistSq(pts[i], cB))
  }

  function AllIndices(n: nat): (r: seq<nat>)
    ensures |r| == n && forall i :: 0 <= i < n ==> r[i] == i
  {
    seq(n, i requires 0 <= i < n => i)
  }

  lemma {:induction false} AssignOfTies(pts: seq<Point>, cA: Point, cB: Point, n: nat)
    requires n <= |pts| && Ties(pts, cA, cB)
    ensures Assign(pts, cA, cB, n) == ([], AllIndices(n))
  {
    if n > 0 {
      AssignOfTies(pts, cA, cB, n - 1);
      assert AllIndices(n - 1) + [n - 1] == AllIndices(n);
    }
  }

  // ------------------------------------------------------------- centroids

  datatype Dim = Energy | Pitch | Zcr

  function Coord(p: Point, d: Dim): Num {
    match d
    case Energy => p.energy
    case Pitch => p.pitch
    case Zcr => p.zcr
  }

  /** `cluster.reduce((sum, idx) => sum + values[idx], 0)`. */
  function SumAt(pts: seq<Point>, cluster: seq<nat>, d: Dim): Num
    requires Below(cluster, |pts|)
  {
    if |cluster| == 0 then Finite(0.0)
    else Add(SumAt(pts, cluster[..|cluster| - 1], d), Coord(pts[cluster[|cluster| - 1]], d))
  }

  /** The mean of one dimension over a non-empty cluster. */
  function MeanAt(pts: seq<Point>, cluster: seq<nat>, d: Dim): Num
    requires |cluster| > 0 && Below(cluster, |pts|)
  {
    DivBy(SumAt(pts, cluster, d), |cluster| as real)
  }

  function Centroid(pts: seq<Point>, cluster: seq<nat>): Point
    requires |cluster| > 0 && Below(cluster, |pts|)
  {
    Point(MeanAt(pts, cluster, Energy), MeanAt(pts, cluster, Pitch), MeanAt(pts, cluster, Zcr))
  }

  // ---------------------------------------------------------------- rounds

  /** The rounds still to run from centroids `cA`, `cB`: each round assigns,
      stops with that assignment when either cluster came out empty or when
      it was the last round, and otherwise moves both centroids to the means
      of their clusters. */
  function Rounds(pts: seq<Point>, cA: Point, cB: Point, rounds: nat): (r: (seq<nat>, seq<nat>))
    requires rounds >= 1
    ensures Below(r.0, |pts|) && Below(r.1, |pts|)
    decreases rounds
  {
    var (a, b) := Assign(pts, cA, cB, |pts|);
    if rounds == 1 || |a| == 0 || |b| == 0 then (a, b)
    else Rounds(pts, Centroid(pts, a), Centroid(pts, b), rounds - 1)
  }

  /** The clustering of the feature vectors: `([0], [])` for fewer than two,
      otherwise the rounds seeded at index 0 and at index `floor(n / 2)`. */
  function Clusters(fs: seq<FeatureVector>): (r: (seq<nat>, seq<nat>))
    ensures |fs| >= 1 ==> Below(r.0, |fs|) && Below(r.1, |fs|)
  {
    if |fs| < 2 then ([0], [])
    else
      var pts := Points(fs);
      Rounds(pts, pts[0], pts[|fs| / 2], MaxRounds)
  }

  lemma {:induction false} RoundsPartition(pts: seq<Point>, cA: Point, cB: Point, rounds: nat)
    requires rounds >= 1
    ensures IsPartition(Rounds(pts, cA, cB, rounds).0, Rounds(pts, cA, cB, rounds).1, |pts|)
    decreases rounds
  {
    var (a, b) := Assign(pts, cA, cB, |pts|);
    if rounds == 1 || |a| == 0 || |b| == 0 {
      AssignPartition(pts, cA, cB);
    } else {
      var cA', cB' := Centroid(pts, a), Centroid(pts, b);
      assert Rounds(pts, cA, cB, rounds) == Rounds(pts, cA', cB', rounds - 1);
      RoundsPartition(pts, cA', cB', rounds - 1);
    }
  }

  /** A full assignment pass partitions all the indices. */
  lemma AssignPartition(pts: seq<Point>, cA: Point, cB: Point)
    ensures IsPartition(Assign(pts, cA, cB, |pts|).0, Assign(pts, cA, cB, |pts|).1, |pts|)
  {
    AssignSpec(pts, cA, cB, |pts|);
  }

  /** For two or more vectors the result lists every index exactly once,
      each cluster in ascending order. */
  lemma ClustersPartition(fs: seq<FeatureVector>)
    requires |fs| >= 2
    ensures IsPartition(Clusters(fs).0, Clusters(fs).1, |fs|)
  {
    var pts := Points(fs);
    RoundsPartition(pts, pts[0], pts[|fs| / 2], MaxRounds);
  }

  /** When no point is strictly nearer the first centroid, the first round
      leaves the first cluster empty and that partition is returned. */
  lemma TiesEndInSecondCluster(pts: seq<Point>, cA: Point, cB: Point, rounds: nat)
    requires rounds >= 1 && Ties(pts, cA, cB)
    ensures Rounds(pts, cA, cB, rounds) == ([], AllIndices(|pts|))
  {
    AssignOfTies(pts, cA, cB, |pts|);
  }

  /** A window of no samples makes its energy and rate NaN; that NaN turns
      the whole dimension NaN, every distance NaN and every comparison false,
      so all indices end in the second cluster. */
  lemma NaNFeatureEndsInSecondCluster(fs: seq<FeatureVector>, k: nat)
    requires |fs| >= 2 && k < |fs| && (fs[k].energy == NaN || fs[k].zcr == NaN)
    ensures Clusters(fs) == ([], AllIndices(|fs|))
  {
    var pts := Points(fs);
    if fs[k].energy == NaN {
      assert !AllFinite(Energies(fs)) by { assert Energies(fs)[k] == NaN; }
    } else {
      assert !AllFinite(Zcrs(fs)) by { assert Zcrs(fs)[k] == NaN; }
    }
    assert Ties(pts, pts[0], pts[|fs| / 2]);
    TiesEndInSecondCluster(pts, pts[0], pts[|fs| / 2], MaxRounds);
  }

  /** When the two seeds coincide every distance ties, so every index ends
      in the second cluster. */
  lemma EqualSeedsEndInSecondCluster(fs: seq<FeatureVector>)
    requires |fs| >= 2 && fs[0] == fs[|fs| / 2]
    ensures Clusters(fs) == ([], AllIndices(|fs|))
  {
    var pts := Points(fs);
    assert pts[0] == pts[|fs| / 2];
    TiesEndInSecondCluster(pts, pts[0], pts[|fs| / 2], MaxRounds);
  }

  // ---------------------------------------------------------------- method

  /** One pass of the `features.forEach` loop. */
  method AssignRound(pts: seq<Point>, cA: Point, cB: Point) returns (cluster1: seq<nat>, cluster2: seq<nat>)
    ensures (cluster1, cluster2) == Assign(pts, cA, cB, |pts|)
  {
    cluster1, cluster2 := [], [];
    var index := 0;
    while index < |pts|
      invariant 0 <= index <= |pts|
      invariant (cluster1, cluster2) == Assign(pts, cA, cB, index)
    {
      var dist1 := DistSq(pts[index], cA);
      var dist2 := DistSq(pts[index], cB);
      if Less(dist1, dist2) {
        cluster1 := cluster1 + [index];
      } else {
        cluster2 := cluster2 + [index];
      }
      index := index + 1;
    }
  }

  method KMeansClustering(features: seq<FeatureVector>) returns (cluster1: seq<nat>, cluster2: seq<nat>)
    ensures (cluster1, cluster2) == Clusters(features)
    ensures |features| < 2 ==> cluster1 == [0] && cluster2 == []
    ensures |features| >= 2 ==> IsPartition(cluster1, cluster2, |features|)
  {
    if |features| < 2 {
      return [0], [];
    }
    ClustersPartition(features);
    var pts := Points(features);
    var centroid1, centroid2 := pts[0], pts[|features| / 2];
    cluster1, cluster2 := [], [];
    var iteration := 0;
    while iteration < MaxRounds
      invariant 0 <= iteration <= MaxRounds
      invariant iteration < MaxRounds ==>
        Rounds(pts, centroid1, centroid2, MaxRounds - iteration) == Clusters(features)
      invariant iteration == MaxRounds ==> (cluster1, cluster2) == Clusters(features)
    {
      cluster1, cluster2 := AssignRound(pts, centroid1, centroid2);
      if |cluster1| == 0 || |cluster2| == 0 {
        break;
      }
      centroid1 := Centroid(pts, cluster1);
      centroid2 := Centroid(pts, cluster2);
      iteration := iteration + 1;
    }
  }
}
