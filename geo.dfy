/** Stop ordering (src/lib/server/services/geo.service.ts). The haversine formula is not
    modelled: the great-circle distance is a parameter `dist`, and the properties a
    haversine distance has are collected in `HaversineLike`. */
module Geo {

  datatype Coord = Coord(lat: real, lng: real)

  datatype GeoPoint = GeoPoint(id: int, lat: real, lng: real)

  /** `haversineDistanceKm`, taken as given. */
  type DistanceFn = (Coord, Coord) -> real

  function Pos(p: GeoPoint): Coord {
    Coord(p.lat, p.lng)
  }

  /** Distance between two points, as the loop computes it. */
  function D(dist: DistanceFn, a: GeoPoint, b: GeoPoint): real {
    dist(Pos(a), Pos(b))
  }

  /** What the haversine formula guarantees and the model may rely on: it is never
      negative, it is 0 from a point to itself, and it does not depend on the direction. */
  ghost predicate HaversineLike(dist: DistanceFn) {
    && (forall a, b :: dist(a, b) >= 0.0)
    && (forall a :: dist(a, a) == 0.0)
    && (forall a, b :: dist(a, b) == dist(b, a))
  }

  /** `nearestDistance`: `Number.POSITIVE_INFINITY` or a distance found so far. */
  datatype Bound = Infinity | Finite(value: real)

  /** `distance < nearestDistance`; every finite distance is below infinity. */
  predicate Below(d: real, b: Bound) {
    b.Infinity? || d < b.value
  }

  /** The index the inner `for` loop settles on after looking at `remaining[..n]`: the
      first point of minimum distance, since only a strictly smaller distance replaces it. */
  function NearestUpTo(dist: DistanceFn, current: GeoPoint, remaining: seq<GeoPoint>, n: nat): (k: nat)
    requires 0 < n <= |remaining|
    ensures k < n
    ensures forall j {:trigger D(dist, current, remaining[j])} :: 0 <= j < n ==> D(dist, current, remaining[k]) <= D(dist, current, remaining[j])
    ensures forall j {:trigger D(dist, current, remaining[j])} :: 0 <= j < k ==> D(dist, current, remaining[k]) < D(dist, current, remaining[j])
  {
    if n == 1 then 0
    else
      var k := NearestUpTo(dist, current, remaining, n - 1);
      if D(dist, current, remaining[n - 1]) < D(dist, current, remaining[k]) then n - 1 else k
  }

  function NearestIndex(dist: DistanceFn, current: GeoPoint, remaining: seq<GeoPoint>): (k: nat)
    requires |remaining| > 0
    ensures k < |remaining|
    ensures forall j {:trigger D(dist, current, remaining[j])} :: 0 <= j < |remaining| ==> D(dist, current, remaining[k]) <= D(dist, current, remaining[j])
    ensures forall j {:trigger D(dist, current, remaining[j])} :: 0 <= j < k ==> D(dist, current, remaining[k]) < D(dist, current, remaining[j])
  {
    NearestUpTo(dist, current, remaining, |remaining|)
  }

  /** A point of minimum distance with every earlier point strictly farther is the one
      `NearestIndex` picks: minimum distance with ties to the earliest determines it. */
  lemma NearestIndexUnique(dist: DistanceFn, current: GeoPoint, remaining: seq<GeoPoint>, k: nat)
    requires k < |remaining|
    requires forall j :: 0 <= j < |remaining| ==> D(dist, current, remaining[k]) <= D(dist, current, remaining[j])
    requires forall j :: 0 <= j < k ==> D(dist, current, remaining[k]) < D(dist, current, remaining[j])
    ensures k == NearestIndex(dist, current, remaining)
  {
    var m := NearestIndex(dist, current, remaining);
    assert forall j :: 0 <= j < m ==> D(dist, current, remaining[m]) < D(dist, current, remaining[j]);
  }

  /** `remaining.splice(k, 1)`: the list without its element at k, order kept. */
  function Splice(s: seq<GeoPoint>, k: nat): (r: seq<GeoPoint>)
    requires k < |s|
    ensures |r| == |s| - 1
    ensures forall j :: 0 <= j < k ==> r[j] == s[j]
    ensures forall j :: k <= j < |r| ==> r[j] == s[j + 1]
  {
    s[..k] + s[k + 1..]
  }

  lemma SplicePermutes(s: seq<GeoPoint>, k: nat)
    requires k < |s|
    ensures multiset(Splice(s, k)) + multiset{s[k]} == multiset(s)
  {
    assert s == s[..k] + [s[k]] + s[k + 1..];
  }

  /** The points the `while` loop appends, from tail `current`, while `remaining` is left. */
  function GreedyFrom(dist: DistanceFn, current: GeoPoint, remaining: seq<GeoPoint>): (r: seq<GeoPoint>)
    ensures |r| == |remaining|
    decreases |remaining|
  {
    if remaining == [] then []
    else
      var k := NearestIndex(dist, current, remaining);
      [remaining[k]] + GreedyFrom(dist, remaining[k], Splice(remaining, k))
  }

  /** The walk appends every remaining point exactly once. */
  lemma {:induction false} GreedyFromPermutes(dist: DistanceFn, current: GeoPoint, remaining: seq<GeoPoint>)
    ensures multiset(GreedyFrom(dist, current, remaining)) == multiset(remaining)
    decreases |remaining|
  {
    if remaining != [] {
      var k := NearestIndex(dist, current, remaining);
      GreedyFromPermutes(dist, remaining[k], Splice(remaining, k));
      SplicePermutes(remaining, k);
    }
  }

  /** `orderByNearestNeighbor(points)`. */
  function NearestNeighborOrder(dist: DistanceFn, points: seq<GeoPoint>): (r: seq<GeoPoint>)
    ensures |r| == |points|
    ensures |points| > 0 ==> r[0] == points[0]
  {
    if |points| <= 2 then points
    else [points[0]] + GreedyFrom(dist, points[0], points[1..])
  }

  /** The greedy walk visits no point twice and drops none: the order is a permutation, and
      so every point's id (the key the optimizer maps back to reports by) is kept. */
  lemma NearestNeighborPermutes(dist: DistanceFn, points: seq<GeoPoint>)
    ensures multiset(NearestNeighborOrder(dist, points)) == multiset(points)
    ensures forall p :: p in NearestNeighborOrder(dist, points) <==> p in points
  {
    var r := NearestNeighborOrder(dist, points);
    if |points| > 2 {
      GreedyFromPermutes(dist, points[0], points[1..]);
      assert points == [points[0]] + points[1..];
    }
    forall p ensures p in r <==> p in points {
      assert p in r <==> p in multiset(r);
      assert p in points <==> p in multiset(points);
    }
  }

  /** Each point of `r` is at least as near to the point before it (`current` for the
      first) as every point after it. */
  predicate ChoosesNearest(dist: DistanceFn, current: GeoPoint, r: seq<GeoPoint>)
    decreases |r|
  {
    r == [] ||
    ((forall j :: 0 <= j < |r| ==> D(dist, current, r[0]) <= D(dist, current, r[j]))
     && ChoosesNearest(dist, r[0], r[1..]))
  }

  /** The point before position i of `[current] + r`. */
  function Prev(current: GeoPoint, r: seq<GeoPoint>, i: nat): GeoPoint
    requires i <= |r|
  {
    if i == 0 then current else r[i - 1]
  }

  /** `ChoosesNearest` read at one position i. */
  lemma {:induction false} ChoosesNearestAt(dist: DistanceFn, current: GeoPoint, r: seq<GeoPoint>, i: nat, j: nat)
    requires ChoosesNearest(dist, current, r)
    requires i <= j < |r|
    ensures D(dist, Prev(current, r, i), r[i]) <= D(dist, Prev(current, r, i), r[j])
    decreases i
  {
    if i > 0 {
      var t := r[1..];
      ChoosesNearestAt(dist, r[0], t, i - 1, j - 1);
      assert t[i - 1] == r[i] && t[j - 1] == r[j];
      assert Prev(r[0], t, i - 1) == r[i - 1];
    }
  }

  /** The first point the walk takes is at least as near to `current` as any later one. */
  lemma GreedyFromHeadIsNearest(dist: DistanceFn, current: GeoPoint, remaining: seq<GeoPoint>)
    requires remaining != []
    ensures var r := GreedyFrom(dist, current, remaining);
      forall j :: 0 <= j < |r| ==> D(dist, current, r[0]) <= D(dist, current, r[j])
  {
    var r := GreedyFrom(dist, current, remaining);
    GreedyFromPermutes(dist, current, remaining);
    forall j | 0 <= j < |r| ensures D(dist, current, r[0]) <= D(dist, current, r[j]) {
      assert r[j] in multiset(remaining);
      var idx :| 0 <= idx < |remaining| && remaining[idx] == r[j];
    }
  }

  /** Each point the walk appends is a nearest one, from the point before it, among all the
      points not yet appended. */
  lemma {:induction false} GreedyFromChoosesNearest(dist: DistanceFn, current: GeoPoint, remaining: seq<GeoPoint>)
    ensures ChoosesNearest(dist, current, GreedyFrom(dist, current, remaining))
    decreases |remaining|
  {
    if remaining != [] {
      var r := GreedyFrom(dist, current, remaining);
      var k := NearestIndex(dist, current, remaining);
      GreedyFromChoosesNearest(dist, remaining[k], Splice(remaining, k));
      GreedyFromHeadIsNearest(dist, current, remaining);
      assert r[1..] == GreedyFrom(dist, remaining[k], Splice(remaining, k));
    }
  }

  /** From the first point on, every point of the order is a nearest one, from its
      predecessor, among the points after it. */
  lemma NearestNeighborIsGreedy(dist: DistanceFn, points: seq<GeoPoint>)
    ensures var r := NearestNeighborOrder(dist, points);
      |points| > 2 ==> forall i, j :: 1 <= i <= j < |r| ==> D(dist, r[i - 1], r[i]) <= D(dist, r[i - 1], r[j])
  {
    if |points| > 2 {
      var r := NearestNeighborOrder(dist, points);
      var g := GreedyFrom(dist, points[0], points[1..]);
      GreedyFromChoosesNearest(dist, points[0], points[1..]);
      assert r == [points[0]] + g;
      forall i, j | 1 <= i <= j < |r| ensures D(dist, r[i - 1], r[i]) <= D(dist, r[i - 1], r[j]) {
        ChoosesNearestAt(dist, points[0], g, i - 1, j - 1);
        assert Prev(points[0], g, i - 1) == r[i - 1];
      }
    }
  }

  /** When several remaining points are nearest, the walk takes the first of them in the
      order of `remaining` (which keeps the input order): every earlier point is strictly
      farther. */
  lemma GreedyTieGoesToEarliest(dist: DistanceFn, current: GeoPoint, remaining: seq<GeoPoint>)
    requires remaining != []
    ensures var r := GreedyFrom(dist, current, remaining);
      exists k :: 0 <= k < |remaining| && r[0] == remaining[k]
        && (forall j :: 0 <= j < k ==> D(dist, current, remaining[j]) > D(dist, current, r[0]))
        && (forall j :: k <= j < |remaining| ==> D(dist, current, r[0]) <= D(dist, current, remaining[j]))
  {
    var k := NearestIndex(dist, current, remaining);
    assert GreedyFrom(dist, current, remaining)[0] == remaining[k];
  }

  /** For two points or fewer `orderByNearestNeighbor` returns its input at once; the
      greedy walk would have produced the same order. */
  lemma ShortInputAgreesWithGreedy(dist: DistanceFn, points: seq<GeoPoint>)
    requires 1 <= |points| <= 2
    ensures NearestNeighborOrder(dist, points) == [points[0]] + GreedyFrom(dist, points[0], points[1..])
  {
    if |points| == 2 {
      var rest := points[1..];
      assert NearestIndex(dist, points[0], rest) == 0;
      assert Splice(rest, 0) == [];
    }
  }

  /** The inner `for` loop of `orderByNearestNeighbor`: starting from an infinite
      `nearestDistance`, only a strictly smaller distance moves `nearestIndex`. */
  method FindNearest(dist: DistanceFn, current: GeoPoint, remaining: seq<GeoPoint>) returns (nearestIndex: nat)
    requires |remaining| > 0
    ensures nearestIndex == NearestIndex(dist, current, remaining)
  {
    nearestIndex := 0;
    var nearestDistance := Infinity;
    for i := 0 to |remaining|
      invariant nearestDistance.Infinity? <==> i == 0
      invariant i == 0 ==> nearestIndex == 0
      invariant i > 0 ==> nearestIndex < i && nearestDistance == Finite(D(dist, current, remaining[nearestIndex]))
      invariant forall j :: 0 <= j < i ==> D(dist, current, remaining[nearestIndex]) <= D(dist, current, remaining[j])
      invariant forall j :: 0 <= j < nearestIndex ==> D(dist, current, remaining[nearestIndex]) < D(dist, current, remaining[j])
    {
      var candidate := remaining[i];
      var distance := dist(Pos(current), Pos(candidate));
      if Below(distance, nearestDistance) {
        nearestDistance := Finite(distance);
        nearestIndex := i;
      }
    }
    NearestIndexUnique(dist, current, remaining, nearestIndex);
  }

  /** One round of the `while` loop: the walk takes the nearest point, then continues
      from it over the rest. */
  lemma GreedyFromStep(dist: DistanceFn, ordered: seq<GeoPoint>, current: GeoPoint, remaining: seq<GeoPoint>, k: nat)
    requires |remaining| > 0 && k == NearestIndex(dist, current, remaining)
    ensures ordered + GreedyFrom(dist, current, remaining)
      == (ordered + [remaining[k]]) + GreedyFrom(dist, remaining[k], remaining[..k] + remaining[k + 1..])
  {
    assert GreedyFrom(dist, current, remaining) == [remaining[k]] + GreedyFrom(dist, remaining[k], remaining[..k] + remaining[k + 1..]);
  }

  /** `orderByNearestNeighbor`: the first point starts the order, and each round moves
      the nearest remaining point to its end, so `remaining` shrinks by one per round. */
  method OrderByNearestNeighbor(dist: DistanceFn, points: seq<GeoPoint>) returns (ordered: seq<GeoPoint>)
    ensures ordered == NearestNeighborOrder(dist, points)
  {
    if |points| <= 2 {
      return points;
    }
    ghost var goal := NearestNeighborOrder(dist, points);
    var remaining := points;
    ordered := [remaining[0]];
    remaining := remaining[1..];
    var current := ordered[0];
    while |remaining| > 0
      invariant ordered + GreedyFrom(dist, current, remaining) == goal
      decreases |remaining|
    {
      var nearestIndex := FindNearest(dist, current, remaining);
      var next := remaining[nearestIndex];
      GreedyFromStep(dist, ordered, current, remaining, nearestIndex);
      ordered := ordered + [next];
      remaining := remaining[..nearestIndex] + remaining[nearestIndex + 1..];
      current := next;
    }
  }
}
