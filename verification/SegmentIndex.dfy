/** The grid index over routable road segments (maps/scripts/driver-streets-to-osc.py, Index). */
module SegmentIndex {
  import opened Common
  import opened Geometry

  datatype Way = Way(id: int, refs: seq<int>, tags: map<string, string>, version: int)

  /** A road segment between two consecutive nodes of a way. */
  datatype Seg = Seg(way: Way, a: int, b: int)

  datatype Near = Near(d: real, segment: Seg, t: real)

  const ROUTABLE: set<string> := {
    "motorway", "motorway_link", "trunk", "trunk_link", "primary", "primary_link", "secondary", "secondary_link",
    "tertiary", "tertiary_link", "unclassified", "residential", "service", "living_street", "track", "road"}

  predicate Routable(w: Way) {
    "highway" in w.tags && w.tags["highway"] in ROUTABLE
  }

  /** s joins two consecutive known nodes of a routable way. */
  predicate IsSegment(nodes: map<int, Point>, ways: seq<Way>, s: Seg) {
    && s.way in ways && Routable(s.way)
    && s.a in nodes && s.b in nodes
    && exists i :: 0 <= i < |s.way.refs| - 1 && s.way.refs[i] == s.a && s.way.refs[i + 1] == s.b
  }

  /** A class of roads that may be driven on: no path, no steps and no footway. */
  predicate DrivableClass(kind: string) {
    || kind == "motorway" || kind == "trunk" || kind == "primary" || kind == "secondary" || kind == "tertiary"
    || kind == "motorway_link" || kind == "trunk_link" || kind == "primary_link" || kind == "secondary_link"
    || kind == "tertiary_link" || kind == "unclassified" || kind == "residential" || kind == "service"
    || kind == "living_street" || kind == "track" || kind == "road"
  }

  lemma ClassMeans(kind: string)
    ensures kind in ROUTABLE <==> DrivableClass(kind)
  {
  }

  /** The segments are those of the drivable roads between nodes that are known. */
  lemma SegmentsMean(nodes: map<int, Point>, ways: seq<Way>, s: Seg)
    ensures IsSegment(nodes, ways, s) <==>
              && s.way in ways && "highway" in s.way.tags && DrivableClass(s.way.tags["highway"])
              && s.a in nodes && s.b in nodes
              && exists i :: 1 <= i < |s.way.refs| && s.way.refs[i - 1] == s.a && s.way.refs[i] == s.b
  {
    hide DrivableClass;
    if "highway" in s.way.tags {
      ClassMeans(s.way.tags["highway"]);
    }
    if i :| 1 <= i < |s.way.refs| && s.way.refs[i - 1] == s.a && s.way.refs[i] == s.b {
      assert s.way.refs[i - 1 + 1] == s.b;
    }
  }

  function Cell(x: real): int {
    (x / CELL).Floor
  }

  function Min(x: real, y: real): real { if x <= y then x else y }
  function Max(x: real, y: real): real { if x <= y then y else x }

  /** The cells a segment is filed under: those of its bounding box. */
  predicate InBox(p: Point, q: Point, ci: int, cj: int) {
    && Cell(Min(p.lat, q.lat)) <= ci <= Cell(Max(p.lat, q.lat))
    && Cell(Min(p.lon, q.lon)) <= cj <= Cell(Max(p.lon, q.lon))
  }

  /** A segment with its distance no more than the radius. */
  predicate Within(k: real, p: Point, nodes: map<int, Point>, s: Seg, radius: real)
    requires s.a in nodes && s.b in nodes
  {
    SegDist(k, p, nodes[s.a], nodes[s.b]) <= Square(radius)
  }

  /** Nearer, or as near with no larger way id. */
  predicate NoFarther(d: real, id: int, d': real, id': int) {
    d < d' || (d == d' && id <= id')
  }

  /** math.ceil */
  function Ceil(x: real): (n: int)
    ensures x <= n as real < x + 1.0
  {
    -((-x).Floor)
  }

  /** How many cells to look to each side. */
  function Reach(k: real, radius: real): int
    requires 0.0 < k <= 1.0
  {
    Ceil(radius / (CELL * M_PER_DEG * k)) + 1
  }

  // ----- the cells looked at hold every segment within the radius -----

  lemma CellMonotone(x: real, y: real)
    requires x <= y
    ensures Cell(x) <= Cell(y)
  {
    assert x / CELL <= y / CELL;
  }

  /** A coordinate within `radius` metres lies within `Reach` cells. */
  lemma NearCell(x: real, y: real, scale: real, radius: real, reach: int)
    requires scale > 0.0 && radius >= 0.0
    requires -radius <= (x - y) * scale <= radius
    requires radius / (CELL * scale) + 1.0 <= reach as real
    ensures -reach <= Cell(x) - Cell(y) <= reach
  {
    CellShift(x, y, scale, radius);
    assert -radius / (CELL * scale) == -(radius / (CELL * scale));
    assert -((reach - 1) as real) <= x / CELL - y / CELL <= (reach - 1) as real;
  }

  lemma CellShift(x: real, y: real, scale: real, radius: real)
    requires scale > 0.0 && radius >= 0.0
    requires -radius <= (x - y) * scale <= radius
    ensures -radius / (CELL * scale) <= x / CELL - y / CELL <= radius / (CELL * scale)
  {
    var unit := CELL * scale;
    var u := x / CELL - y / CELL;
    assert u * unit == (x - y) * scale by {
      assert u * CELL == x - y;
      assert u * (CELL * scale) == (u * CELL) * scale;
    }
    var q := radius / unit;
    assert q * unit == radius && (-q) * unit == -radius;
    Cancel(u, q, unit);
    Cancel(-q, u, unit);
    assert -radius / unit == -q;
  }

  /** A point within the radius is within reach. */
  lemma Components(k: real, p: Point, q: Point)
    ensures DistSquared(k, p, q) == Square(East(k, p) - East(k, q)) + Square(North(p) - North(q))
    ensures Square(East(k, p) - East(k, q)) >= 0.0 && Square(North(p) - North(q)) >= 0.0
    ensures East(k, p) - East(k, q) == (p.lon - q.lon) * (M_PER_DEG * k)
    ensures North(p) - North(q) == (p.lat - q.lat) * M_PER_DEG
  {
    hide Square;
    EastScales(k, p.lon, q.lon);
  }

  lemma EastScales(k: real, x: real, y: real)
    ensures x * M_PER_DEG * k - y * M_PER_DEG * k == (x - y) * (M_PER_DEG * k)
  {
  }

  lemma NearPointIsReached(k: real, p: Point, q: Point, radius: real)
    requires 0.0 < k <= 1.0 && radius >= 0.0
    requires DistSquared(k, p, q) <= Square(radius)
    ensures -Reach(k, radius) <= Cell(p.lat) - Cell(q.lat) <= Reach(k, radius)
    ensures -Reach(k, radius) <= Cell(p.lon) - Cell(q.lon) <= Reach(k, radius)
  {
    hide *;
    Components(k, p, q);
    RootBound(East(k, p) - East(k, q), radius);
    RootBound(North(p) - North(q), radius);
    LonIsReached(k, p.lon, q.lon, radius);
    LatIsReached(k, p.lat, q.lat, radius);
  }

  lemma LonIsReached(k: real, x: real, y: real, radius: real)
    requires 0.0 < k <= 1.0 && radius >= 0.0 && -radius <= (x - y) * (M_PER_DEG * k) <= radius
    ensures -Reach(k, radius) <= Cell(x) - Cell(y) <= Reach(k, radius)
  {
    hide Reach, Cell;
    ReachIsEnough(k, radius);
    NearCell(x, y, M_PER_DEG * k, radius, Reach(k, radius));
  }

  lemma LatIsReached(k: real, x: real, y: real, radius: real)
    requires 0.0 < k <= 1.0 && radius >= 0.0 && -radius <= (x - y) * M_PER_DEG <= radius
    ensures -Reach(k, radius) <= Cell(x) - Cell(y) <= Reach(k, radius)
  {
    hide Reach, Cell;
    ReachIsEnough(k, radius);
    NearCell(x, y, M_PER_DEG, radius, Reach(k, radius));
  }

  /** Every point of a segment is in a cell of the segment's box. */
  lemma AlongIsInBox(a: Point, b: Point, t: real)
    requires 0.0 <= t <= 1.0
    ensures InBox(a, b, Cell(Along(a, b, t).lat), Cell(Along(a, b, t).lon))
  {
    var q := Along(a, b, t);
    AlongIsBetween(a.lat, b.lat, t);
    AlongIsBetween(a.lon, b.lon, t);
    CellMonotone(Min(a.lat, b.lat), q.lat);
    CellMonotone(q.lat, Max(a.lat, b.lat));
    CellMonotone(Min(a.lon, b.lon), q.lon);
    CellMonotone(q.lon, Max(a.lon, b.lon));
  }

  /** A segment within the radius is filed under a cell that is looked at. */
  lemma NearSegmentIsReached(k: real, p: Point, a: Point, b: Point, radius: real) returns (ci: int, cj: int)
    requires 0.0 < k <= 1.0 && radius >= 0.0
    requires SegDist(k, p, a, b) <= Square(radius)
    ensures InBox(a, b, ci, cj)
    ensures Cell(p.lat) - Reach(k, radius) <= ci <= Cell(p.lat) + Reach(k, radius)
    ensures Cell(p.lon) - Reach(k, radius) <= cj <= Cell(p.lon) + Reach(k, radius)
  {
    hide DistSquared, Project, Along, Reach, InBox, Cell;
    var t := Project(k, p, a, b);
    var q := Along(a, b, t);
    NearPointIsReached(k, p, q, radius);
    AlongIsInBox(a, b, t);
    ci, cj := Cell(q.lat), Cell(q.lon);
  }

  lemma AlongIsBetween(x: real, y: real, t: real)
    requires 0.0 <= t <= 1.0
    ensures Min(x, y) <= x + t * (y - x) <= Max(x, y)
  {
    if x <= y {
      Share(t, y - x, t * (y - x));
    } else {
      Share(t, x - y, -(t * (y - x)));
    }
  }

  lemma Share(t: real, w: real, p: real)
    requires 0.0 <= t <= 1.0 && w >= 0.0 && p == t * w
    ensures 0.0 <= p <= w
  {
    assert w - p == (1.0 - t) * w;
  }

  lemma ReachIsEnough(k: real, radius: real)
    requires 0.0 < k <= 1.0 && radius >= 0.0
    ensures radius / (CELL * (M_PER_DEG * k)) + 1.0 <= Reach(k, radius) as real
    ensures radius / (CELL * M_PER_DEG) + 1.0 <= Reach(k, radius) as real
  {
    var wide, narrow := CELL * M_PER_DEG, CELL * (M_PER_DEG * k);
  }

  // ----- the index -----

  type Cells = map<(int, int), seq<Seg>>

  /** The segments of one cell. */
  function Filed(cells: Cells, ci: int, cj: int): seq<Seg> {
    if (ci, cj) in cells then cells[(ci, cj)] else []
  }

  /** A cell holds the filed segments whose box covers it, and nothing else. */
  ghost predicate WellFiled(nodes: map<int, Point>, ways: seq<Way>, cells: Cells, filed: set<Seg>) {
    && (forall s :: s in filed ==> IsSegment(nodes, ways, s))
    && (forall ci, cj, s :: s in Filed(cells, ci, cj) ==> s in filed)
    && (forall ci, cj, s :: s in filed && InBox(nodes[s.a], nodes[s.b], ci, cj) ==> s in Filed(cells, ci, cj))
  }

  lemma OneMoreFiled(
    nodes: map<int, Point>, ways: seq<Way>, cells: Cells, cells': Cells, filed: set<Seg>, s: Seg)
    requires WellFiled(nodes, ways, cells, filed) && IsSegment(nodes, ways, s)
    requires forall i, j :: Filed(cells', i, j) ==
                              Filed(cells, i, j) + if InBox(nodes[s.a], nodes[s.b], i, j) then [s] else []
    ensures WellFiled(nodes, ways, cells', filed + {s})
  {
    hide IsSegment, InBox;
    forall i, j, x | x in Filed(cells', i, j)
      ensures x in filed + {s}
    {
      assert x != s ==> x in Filed(cells, i, j);
    }
  }

  class Index {
    const nodes: map<int, Point>
    ghost const ways: seq<Way>
    var cells: Cells
    /** The segments filed so far. */
    ghost var filed: set<Seg>

    function At(ci: int, cj: int): seq<Seg>
      reads this
    {
      Filed(cells, ci, cj)
    }

    ghost predicate Consistent()
      reads this
    {
      WellFiled(nodes, ways, cells, filed)
    }

    ghost predicate Valid()
      reads this
    {
      Consistent() && forall s :: IsSegment(nodes, ways, s) ==> s in filed
    }

    constructor (nodes: map<int, Point>, ways: seq<Way>)
      ensures Valid() && this.nodes == nodes && this.ways == ways
    {
      this.nodes, this.ways := nodes, ways;
      cells, filed := map[], {};
      new;
      for n := 0 to |ways|
        invariant Consistent()
        invariant forall s :: IsSegment(nodes, ways[..n], s) ==> s in filed
      {
        if Routable(ways[n]) {
          FileWay(ways[n]);
        }
        assert forall s :: IsSegment(nodes, ways[..n + 1], s) && s.way != ways[n] ==> IsSegment(nodes, ways[..n], s);
      }
      assert ways[..|ways|] == ways;
    }

    /** Files the segments of one routable way whose ends are known. */
    method FileWay(w: Way)
      requires Consistent() && w in ways && Routable(w)
      modifies this`cells, this`filed
      ensures Consistent() && old(filed) <= filed
      ensures forall s :: IsSegment(nodes, ways, s) && s.way == w ==> s in filed
    {
      var i := 0;
      while i < |w.refs| - 1
        invariant 0 <= i
        invariant Consistent() && old(filed) <= filed
        invariant forall j :: 0 <= j < i && j < |w.refs| - 1 && w.refs[j] in nodes && w.refs[j + 1] in nodes ==>
                    Seg(w, w.refs[j], w.refs[j + 1]) in filed
      {
        if w.refs[i] in nodes && w.refs[i + 1] in nodes {
          FileSegment(Seg(w, w.refs[i], w.refs[i + 1]));
        }
        i := i + 1;
      }
    }

    method FileSegment(s: Seg)
      requires Consistent() && IsSegment(nodes, ways, s)
      modifies this`cells, this`filed
      ensures Consistent() && filed == old(filed) + {s}
    {
      FileBox(s);
      OneMoreFiled(nodes, ways, old(cells), cells, filed, s);
      filed := filed + {s};
    }

    /** Appends the segment to every cell of its box. */
    method FileBox(s: Seg)
      requires s.a in nodes && s.b in nodes
      modifies this`cells
      ensures forall i, j :: At(i, j) == old(At(i, j)) + if InBox(nodes[s.a], nodes[s.b], i, j) then [s] else []
    {
      var a, b := nodes[s.a], nodes[s.b];
      var lo, hi := Cell(Min(a.lon, b.lon)), Cell(Max(a.lon, b.lon)) + 1;
      var top := Cell(Max(a.lat, b.lat)) + 1;
      var ci := Cell(Min(a.lat, b.lat));
      ghost var first := ci;
      hide Cell;
      while ci < top
        invariant first <= ci
        invariant forall i, j :: InBox(a, b, i, j) && i < ci ==> At(i, j) == old(At(i, j)) + [s]
        invariant forall i, j :: !(InBox(a, b, i, j) && i < ci) ==> At(i, j) == old(At(i, j))
      {
        FileRow(s, ci, lo, hi);
        ci := ci + 1;
      }
    }

    method FileRow(s: Seg, ci: int, lo: int, hi: int)
      modifies this`cells
      ensures forall i, j :: At(i, j) == old(At(i, j)) + if i == ci && lo <= j < hi then [s] else []
    {
      var cj := lo;
      while cj < hi
        invariant lo <= cj
        invariant forall i, j :: i == ci && lo <= j < hi && j < cj ==> At(i, j) == old(At(i, j)) + [s]
        invariant forall i, j :: !(i == ci && lo <= j < hi && j < cj) ==> At(i, j) == old(At(i, j))
      {
        cells := cells[(ci, cj) := At(ci, cj) + [s]];
        cj := cj + 1;
      }
    }

    /** No segment within the radius beats the best one, and there is a best one if there is any. */
    ghost predicate Best(k: real, p: Point, radius: real, best: Option<Near>, s: Seg)
      requires s.a in nodes && s.b in nodes
    {
      Within(k, p, nodes, s, radius) ==>
        best.Some? && NoFarther(best.value.d, best.value.segment.way.id, SegDist(k, p, nodes[s.a], nodes[s.b]),
            s.way.id)
    }

    /** A best segment is a segment within the radius, with its own distance and share. */
    ghost predicate Genuine(k: real, p: Point, radius: real, best: Option<Near>) {
      best.Some? ==>
        var s := best.value.segment;
        && IsSegment(nodes, ways, s) && Within(k, p, nodes, s, radius)
        && best.value.d == SegDist(k, p, nodes[s.a], nodes[s.b])
        && best.value.t == Project(k, p, nodes[s.a], nodes[s.b])
    }

    /** What the scan has seen is beaten or tied by the best. */
    ghost predicate SeenIsBeaten(
      k: real, p: Point, radius: real, best: Option<Near>, seen: set<(int, int, int)>)
    {
      forall id, a, b :: (id, a, b) in seen ==>
        && a in nodes && b in nodes
        && (SegDist(k, p, nodes[a], nodes[b]) <= Square(radius) ==>
             best.Some? && NoFarther(best.value.d, best.value.segment.way.id, SegDist(k, p, nodes[a], nodes[b]), id))
    }

    /** The nearest segment within the radius by distance and then by way id; none exactly when no
        routable segment is within the radius. */
    method Nearest(cosine: real -> real, p: Point, radius: real) returns (best: Option<Near>)
      requires Valid() && radius >= 0.0 && Cosine(cosine)
      ensures best.Some? ==>
                var s, k := best.value.segment, cosine(p.lat);
                && IsSegment(nodes, ways, s) && Within(k, p, nodes, s, radius)
                && best.value.d == SegDist(k, p, nodes[s.a], nodes[s.b])
                && best.value.t == Project(k, p, nodes[s.a], nodes[s.b])
      ensures forall s :: IsSegment(nodes, ways, s) && Within(cosine(p.lat), p, nodes, s, radius) ==>
                best.Some?
                && (best.value.d < SegDist(cosine(p.lat), p, nodes[s.a], nodes[s.b])
                    || (best.value.d == SegDist(cosine(p.lat), p, nodes[s.a], nodes[s.b])
                        && best.value.segment.way.id <= s.way.id))
    {
      var k := cosine(p.lat);
      var r := Reach(k, radius);
      var ci0, cj0 := Cell(p.lat), Cell(p.lon);
      var seen: set<(int, int, int)> := {};
      best := None;
      hide SegDist, Project, Square, InBox, Cell, Reach;
      var ci := ci0 - r;
      while ci < ci0 + r + 1
        invariant ci0 - r <= ci
        invariant Genuine(k, p, radius, best) && SeenIsBeaten(k, p, radius, best, seen)
        invariant forall i, j, s :: ci0 - r <= i < ci && cj0 - r <= j <= cj0 + r && s in At(i, j) ==>
                    (s.way.id, s.a, s.b) in seen
      {
        best, seen := ScanRow(k, p, radius, best, seen, ci, cj0 - r, cj0 + r + 1);
        ci := ci + 1;
      }
      forall s | IsSegment(nodes, ways, s) && Within(k, p, nodes, s, radius)
        ensures Best(k, p, radius, best, s)
      {
        var i, j := NearSegmentIsReached(k, p, nodes[s.a], nodes[s.b], radius);
        assert s in At(i, j);
        assert (s.way.id, s.a, s.b) in seen;
      }
    }

    method ScanRow(
      k: real, p: Point, radius: real, best0: Option<Near>, seen0: set<(int, int, int)>, ci: int, lo: int, hi: int)
      returns (best: Option<Near>, seen: set<(int, int, int)>)
      requires Consistent()
      requires Genuine(k, p, radius, best0) && SeenIsBeaten(k, p, radius, best0, seen0)
      ensures Genuine(k, p, radius, best) && SeenIsBeaten(k, p, radius, best, seen)
      ensures seen0 <= seen
      ensures forall j, s :: lo <= j < hi && s in At(ci, j) ==> (s.way.id, s.a, s.b) in seen
    {
      best, seen := best0, seen0;
      var cj := lo;
      while cj < hi
        invariant lo <= cj
        invariant Genuine(k, p, radius, best) && SeenIsBeaten(k, p, radius, best, seen)
        invariant seen0 <= seen
        invariant forall j, s :: lo <= j < hi && j < cj && s in At(ci, j) ==> (s.way.id, s.a, s.b) in seen
      {
        best, seen := ScanCell(k, p, radius, best, seen, At(ci, cj));
        cj := cj + 1;
      }
    }

    method ScanCell(
      k: real, p: Point, radius: real, best0: Option<Near>, seen0: set<(int, int, int)>, segs: seq<Seg>)
      returns (best: Option<Near>, seen: set<(int, int, int)>)
      requires forall s :: s in segs ==> IsSegment(nodes, ways, s)
      requires Genuine(k, p, radius, best0) && SeenIsBeaten(k, p, radius, best0, seen0)
      ensures Genuine(k, p, radius, best) && SeenIsBeaten(k, p, radius, best, seen)
      ensures seen0 <= seen
      ensures forall s :: s in segs ==> (s.way.id, s.a, s.b) in seen
    {
      hide SegDist, Project, Square;
      best, seen := best0, seen0;
      for n := 0 to |segs|
        invariant Genuine(k, p, radius, best) && SeenIsBeaten(k, p, radius, best, seen)
        invariant seen0 <= seen
        invariant forall m :: 0 <= m < n ==> (segs[m].way.id, segs[m].a, segs[m].b) in seen
      {
        var s := segs[n];
        var key := (s.way.id, s.a, s.b);
        assert s in segs;
        if key !in seen {
          seen := seen + {key};
          var d, t := SegDist(k, p, nodes[s.a], nodes[s.b]), Project(k, p, nodes[s.a], nodes[s.b]);
          if d <= Square(radius)
             && (best.None? || d < best.value.d || (d == best.value.d && s.way.id < best.value.segment.way.id)) {
            best := Some(Near(d, s, t));
          }
        }
      }
    }
  }
}
