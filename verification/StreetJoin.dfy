/** Connecting driver streets to the roads of the map (maps/scripts/driver-streets-to-osc.py, build). */
module StreetJoin {
  import opened Common
  import opened Geometry
  import opened SegmentIndex
  import opened Splice
  import opened Weave

  const CONNECT_M := 35.0
  const SNAP_M := 3.0
  const MAPPED_M := 10.0
  const MAPPED_SHARE := 0.8

  datatype Report = Report(streets: nat, alreadyMapped: nat, endsConnected: nat, endsOpen: nat, junctions: nat)

  /** What build accumulates: the created nodes, all nodes, the changed roads, the report, the last junction id. */
  datatype Net = Net(
    created: map<int, Point>, nodes: map<int, Point>, modified: map<int, Way>, report: Report, jid: int)

  /** The refs of a road as changed so far. */
  function CurrentRefs(modified: map<int, Way>, road: Way): seq<int> {
    if road.id in modified then modified[road.id].refs else road.refs
  }

  /** A new junction at share t of the segment ab, spliced into the road; none stands for a lookup of
      an unknown node, which ends the program. */
  function WithJunction(net: Net, road: Way, a: int, b: int, t: real): Option<Net>
    requires a in net.nodes && b in net.nodes
  {
    var x := net.jid + 1;
    var pos := Along(net.nodes[a], net.nodes[b], t);
    var nodes := net.nodes[x := pos];
    match Spliced(CurrentRefs(net.modified, road), a, b, x, nodes, pos)
    case None => None
    case Some(refs) =>
      var version := if road.id in net.modified then net.modified[road.id].version else road.version + 1;
      var tags := if road.id in net.modified then net.modified[road.id].tags else road.tags;
      Some(Net(net.created[x := pos], nodes, net.modified[road.id := Way(road.id, refs, tags, version)],
               net.report.(junctions := net.report.junctions + 1), x))
  }

  // ----- the network that build keeps -----

  /** Road node ids, street node ids and junction ids do not meet, and way ids are unique. */
  ghost predicate Separate(hwNodes: map<int, Point>, hwWays: seq<Way>, stNodes: map<int, Point>) {
    && (forall n :: n in hwNodes ==> n <= JUNCTION_START)
    && (forall i, m :: 0 <= i < |hwWays| && 0 <= m < |hwWays[i].refs| ==> hwWays[i].refs[m] <= JUNCTION_START)
    && (forall i, j :: 0 <= i < j < |hwWays| ==> hwWays[i].id != hwWays[j].id)
    && (forall n :: n in stNodes ==> n <= JUNCTION_START && n !in hwNodes)
  }

  /** A changed road is a routable road with its own id and tags, the next version, and junctions added
      to its refs and nothing else. */
  ghost predicate IsRevision(hwWays: seq<Way>, id: int, w: Way) {
    exists road :: road in hwWays && Routable(road) && road.id == id
                   && w == Way(id, w.refs, road.tags, road.version + 1) && Originals(w.refs) == road.refs
  }

  ghost predicate NetInv(hwNodes: map<int, Point>, hwWays: seq<Way>, net: Net) {
    && (forall n :: n in hwNodes ==> n in net.nodes && net.nodes[n] == hwNodes[n])
    && (forall n :: n in net.nodes ==> n <= net.jid)
    && net.jid == JUNCTION_START + net.report.junctions
    && (forall id :: id in net.modified ==> IsRevision(hwWays, id, net.modified[id]))
  }

  /** The road's course: on each of its segments lie its junctions, in order. */
  ghost predicate Course(nodes: map<int, Point>, road: Way, refs: seq<int>) {
    exists gaps :: WellWoven(nodes, road.refs, gaps, refs)
  }

  /** The roads of a set keep their course. */
  ghost predicate Courses(roads: set<Way>, net: Net) {
    forall road :: road in roads ==> Course(net.nodes, road, CurrentRefs(net.modified, road))
  }

  /** The segment is, at some place of its road, the first with either of its nodes. */
  ghost predicate OnClear(s: Seg) {
    exists n: nat :: n + 1 < |s.way.refs| && ClearAt(s.way.refs, n) && s.way.refs[n] == s.a && s.way.refs[n + 1] == s.b
  }

  /** No road loses a node. */
  ghost predicate Grows(hwWays: seq<Way>, before: Net, after: Net) {
    forall road, x :: road in hwWays && x in CurrentRefs(before.modified, road) ==>
        x in CurrentRefs(after.modified, road)
  }

  lemma UniqueWay(hwNodes: map<int, Point>, hwWays: seq<Way>, stNodes: map<int, Point>, v: Way, w: Way)
    requires Separate(hwNodes, hwWays, stNodes) && v in hwWays && w in hwWays && v.id == w.id
    ensures v == w
  {
    var i :| 0 <= i < |hwWays| && hwWays[i] == v;
    var j :| 0 <= j < |hwWays| && hwWays[j] == w;
  }

  /** Without its junctions a road is the road of the map. */
  lemma CurrentOriginals(
    hwNodes: map<int, Point>, hwWays: seq<Way>, stNodes: map<int, Point>, net: Net, road: Way)
    requires Separate(hwNodes, hwWays, stNodes) && NetInv(hwNodes, hwWays, net) && road in hwWays
    ensures Originals(CurrentRefs(net.modified, road)) == road.refs
    ensures road.id in net.modified ==>
              net.modified[road.id] == Way(road.id, net.modified[road.id].refs, road.tags, road.version + 1)
  {
    if road.id in net.modified {
      var w := net.modified[road.id];
      assert IsRevision(hwWays, road.id, w);
      var r :| r in hwWays && Routable(r) && r.id == road.id
               && w == Way(road.id, w.refs, r.tags, r.version + 1) && Originals(w.refs) == r.refs;
      UniqueWay(hwNodes, hwWays, stNodes, r, road);
    } else {
      OriginalsOfAll(road.refs);
    }
  }

  /** Two nodes in a row among the originals stand in that order among the refs. */
  lemma {:induction false} OriginalsInOrder(refs: seq<int>, n: nat) returns (p: nat)
    requires n < |Originals(refs)|
    ensures p < |refs| && refs[p] == Originals(refs)[n] && Originals(refs[p + 1..]) == Originals(refs)[n + 1..]
  {
    if refs[0] <= JUNCTION_START {
      if n == 0 {
        p := 0;
      } else {
        p := OriginalsInOrder(refs[1..], n - 1);
        p := p + 1;
        assert refs[1..][p..] == refs[p + 1..];
      }
    } else {
      p := OriginalsInOrder(refs[1..], n);
      p := p + 1;
      assert refs[1..][p..] == refs[p + 1..];
    }
  }

  lemma SegmentIsMet(refs: seq<int>, a: int, b: int, n: nat)
    requires n + 1 < |Originals(refs)| && Originals(refs)[n] == a && Originals(refs)[n + 1] == b
    ensures Met(refs, a, b, 0).Some?
  {
    var p := OriginalsInOrder(refs, n);
    var q := OriginalsInOrder(refs[p + 1..], 0);
    OrderedIsMet(refs, a, b, 0, p, p + 1 + q);
  }

  /** A splice adds the junction to the refs and nothing else. */
  lemma SpliceAddsOne(refs: seq<int>, a: int, b: int, x: int, nodes: map<int, Point>, pos: Point)
    requires Met(refs, a, b, 0).Some? && Spliced(refs, a, b, x, nodes, pos).Some? && x > JUNCTION_START
    ensures var r := Spliced(refs, a, b, x, nodes, pos).value;
            && x in r && (forall y :: y in refs ==> y in r) && Originals(r) == Originals(refs)
  {
    hide DegDist, Met, Originals;
    var (i, j) := Met(refs, a, b, 0).value;
    var k := Slot(refs, nodes, nodes[refs[i]], DegDist(pos, nodes[refs[i]]), i + 1, j).value;
    OriginalsOfInsert(refs, k, x);
    var r := InsertAt(refs, k, x);
    assert r[k] == x;
    forall y | y in refs
      ensures y in r
    {
      var m :| 0 <= m < |refs| && refs[m] == y;
      assert r[if m < k then m else m + 1] == y;
    }
  }

  /** Where a segment stands on its way. */
  lemma SegmentPlace(nodes: map<int, Point>, ways: seq<Way>, s: Seg) returns (n: nat)
    requires IsSegment(nodes, ways, s)
    ensures s.way in ways && Routable(s.way) && s.a in nodes && s.b in nodes
    ensures n + 1 < |s.way.refs| && s.way.refs[n] == s.a && s.way.refs[n + 1] == s.b
  {
    hide Routable;
    n :| 0 <= n < |s.way.refs| - 1 && s.way.refs[n] == s.a && s.way.refs[n + 1] == s.b;
  }

  /** net' is the network after a new junction at share t of the segment. */
  ghost predicate AddsJunction(net: Net, s: Seg, t: real, net': Net) {
    s.a in net.nodes && s.b in net.nodes && WithJunction(net, s.way, s.a, s.b, t) == Some(net')
  }

  /** The parts of the network after a new junction. */
  lemma JunctionShape(net: Net, s: Seg, t: real, net': Net)
    requires AddsJunction(net, s, t, net')
    ensures s.a in net.nodes && s.b in net.nodes
    ensures var x, pos := net.jid + 1, Along(net.nodes[s.a], net.nodes[s.b], t);
            && net'.jid == x && net'.nodes == net.nodes[x := pos] && net'.created == net.created[x := pos]
            && net'.report == net.report.(junctions := net.report.junctions + 1)
            && Spliced(CurrentRefs(net.modified, s.way), s.a, s.b, x, net'.nodes, pos)
               == Some(CurrentRefs(net'.modified, s.way))
    ensures s.way.id in net'.modified
    ensures var w := net'.modified[s.way.id];
            && w.id == s.way.id && net'.modified == net.modified[s.way.id := w]
            && (s.way.id in net.modified ==>
                  w.version == net.modified[s.way.id].version && w.tags == net.modified[s.way.id].tags)
            && (s.way.id !in net.modified ==> w.version == s.way.version + 1 && w.tags == s.way.tags)
  {
    hide Spliced, Along;
  }

  /** The refs of the road after a new junction. */
  lemma JunctionRefs(refs: seq<int>, way: seq<int>, n: nat, x: int, nodes: map<int, Point>, pos: Point, refs': seq<int>)
    requires Originals(refs) == way && n + 1 < |way| && x > JUNCTION_START
    requires Spliced(refs, way[n], way[n + 1], x, nodes, pos) == Some(refs')
    ensures Originals(refs') == way && x in refs' && forall y :: y in refs ==> y in refs'
  {
    hide Originals, Spliced, Met;
    SegmentIsMet(refs, way[n], way[n + 1], n);
    SpliceAddsOne(refs, way[n], way[n + 1], x, nodes, pos);
  }

  /** The road after a new junction: its next version, with the junction among its refs. */
  lemma JunctionOnRoad(
    hwNodes: map<int, Point>, hwWays: seq<Way>, stNodes: map<int, Point>, net: Net, s: Seg, t: real, net': Net)
    requires Separate(hwNodes, hwWays, stNodes) && NetInv(hwNodes, hwWays, net) && IsSegment(hwNodes, hwWays, s)
    requires net.jid >= JUNCTION_START && AddsJunction(net, s, t, net')
    ensures s.way in hwWays && s.way.id in net'.modified
    ensures net'.modified[s.way.id] ==
              Way(s.way.id, CurrentRefs(net'.modified, s.way), s.way.tags, s.way.version + 1)
    ensures Originals(CurrentRefs(net'.modified, s.way)) == s.way.refs
    ensures net'.jid in CurrentRefs(net'.modified, s.way)
    ensures forall x :: x in CurrentRefs(net.modified, s.way) ==> x in CurrentRefs(net'.modified, s.way)
  {
    hide Originals, Spliced, Along, Separate, IsRevision, IsSegment, AddsJunction, NetInv, Routable;
    var n := SegmentPlace(hwNodes, hwWays, s);
    CurrentOriginals(hwNodes, hwWays, stNodes, net, s.way);
    JunctionShape(net, s, t, net');
    JunctionRefs(CurrentRefs(net.modified, s.way), s.way.refs, n, net'.jid, net'.nodes,
                 Along(net.nodes[s.a], net.nodes[s.b], t), CurrentRefs(net'.modified, s.way));
  }

  /** A new junction keeps the network. */
  lemma JunctionKeepsNet(
    hwNodes: map<int, Point>, hwWays: seq<Way>, stNodes: map<int, Point>, net: Net, s: Seg, t: real, net': Net)
    requires Separate(hwNodes, hwWays, stNodes) && NetInv(hwNodes, hwWays, net) && IsSegment(hwNodes, hwWays, s)
    requires AddsJunction(net, s, t, net')
    ensures NetInv(hwNodes, hwWays, net') && net'.jid in net'.nodes && net'.jid !in net.nodes
  {
    hide Originals, Spliced, Along, AddsJunction, Routable, IsSegment;
    JunctionOnRoad(hwNodes, hwWays, stNodes, net, s, t, net');
    JunctionShape(net, s, t, net');
    var n := SegmentPlace(hwNodes, hwWays, s);
    assert IsRevision(hwWays, s.way.id, net'.modified[s.way.id]);
    hide Separate, IsRevision;
  }

  lemma JunctionIdsAreHigh(hwNodes: map<int, Point>, hwWays: seq<Way>, net: Net)
    requires NetInv(hwNodes, hwWays, net)
    ensures net.jid >= JUNCTION_START
  {
    hide IsRevision;
  }

  /** The road a new junction is put on takes it, and no road loses a node. */
  lemma JunctionGrows(
    hwNodes: map<int, Point>, hwWays: seq<Way>, stNodes: map<int, Point>, net: Net, s: Seg, t: real, net': Net)
    requires Separate(hwNodes, hwWays, stNodes) && NetInv(hwNodes, hwWays, net) && IsSegment(hwNodes, hwWays, s)
    requires AddsJunction(net, s, t, net')
    ensures Grows(hwWays, net, net') && net'.jid in CurrentRefs(net'.modified, s.way)
  {
    hide Originals, Spliced, Along, AddsJunction, Routable, IsSegment, Separate, NetInv;
    JunctionIdsAreHigh(hwNodes, hwWays, net);
    JunctionOnRoad(hwNodes, hwWays, stNodes, net, s, t, net');
    JunctionShape(net, s, t, net');
    forall road, x | road in hwWays && x in CurrentRefs(net.modified, road)
      ensures x in CurrentRefs(net'.modified, road)
    {
      if road.id == s.way.id {
        UniqueWay(hwNodes, hwWays, stNodes, road, s.way);
      }
    }
  }

  // ----- where the junctions are -----

  /** Junction n is on the changed road. */
  predicate On(modified: map<int, Way>, id: int, n: int) {
    n > JUNCTION_START && id in modified && n in modified[id].refs
  }

  ghost predicate OnSome(modified: map<int, Way>, n: int) {
    exists id :: On(modified, id, n)
  }

  /** No junction stands twice. */
  predicate Once(refs: seq<int>) {
    forall p, q :: 0 <= p < q < |refs| && refs[p] > JUNCTION_START ==> refs[p] != refs[q]
  }

  /** A road is changed by junctions only, and every junction up to the last is on one road, once. */
  ghost predicate Placed(modified: map<int, Way>, last: int) {
    && (forall id :: id in modified ==> (exists n :: On(modified, id, n)) && Once(modified[id].refs))
    && (forall id, n :: On(modified, id, n) ==> n <= last)
    && (forall n :: JUNCTION_START < n <= last ==> OnSome(modified, n))
    && (forall id, id', n :: On(modified, id, n) && On(modified, id', n) ==> id == id')
  }

  /** The junctions of a road as changed so far stand once each and are not new. */
  lemma CurrentOnce(
    hwNodes: map<int, Point>, hwWays: seq<Way>, stNodes: map<int, Point>, net: Net, road: Way)
    requires Separate(hwNodes, hwWays, stNodes) && Placed(net.modified, net.jid) && road in hwWays
    requires net.jid >= JUNCTION_START
    ensures Once(CurrentRefs(net.modified, road)) && net.jid + 1 !in CurrentRefs(net.modified, road)
    ensures road.id !in net.modified ==> forall n :: n in road.refs ==> n <= JUNCTION_START
  {
    var refs := CurrentRefs(net.modified, road);
    if road.id in net.modified {
      assert net.jid + 1 in refs ==> On(net.modified, road.id, net.jid + 1);
    } else {
      var i :| 0 <= i < |hwWays| && hwWays[i] == road;
      assert forall m :: 0 <= m < |road.refs| ==> hwWays[i].refs[m] <= JUNCTION_START;
    }
  }

  /** The refs after a splice are the refs with the junction at one place. */
  lemma SpliceInserts(
    refs: seq<int>, way: seq<int>, n: nat, x: int, nodes: map<int, Point>, pos: Point, refs': seq<int>)
    returns (k: nat)
    requires Originals(refs) == way && n + 1 < |way|
    requires Spliced(refs, way[n], way[n + 1], x, nodes, pos) == Some(refs')
    ensures k <= |refs| && refs' == InsertAt(refs, k, x)
  {
    SegmentIsMet(refs, way[n], way[n + 1], n);
    hide Originals, Met, DegDist, InsertAt;
    var (i, j) := Met(refs, way[n], way[n + 1], 0).value;
    k := Slot(refs, nodes, nodes[refs[i]], DegDist(pos, nodes[refs[i]]), i + 1, j).value;
  }

  lemma InsertedOnce(refs: seq<int>, k: nat, x: int)
    requires k <= |refs| && Once(refs) && x !in refs
    ensures Once(InsertAt(refs, k, x))
    ensures forall n :: n in InsertAt(refs, k, x) <==> n == x || n in refs
  {
    var r := InsertAt(refs, k, x);
    forall n
      ensures n in r <==> n == x || n in refs
    {
      if n in r {
        var m :| 0 <= m < |r| && r[m] == n;
        assert m != k ==> r[m] == refs[if m < k then m else m - 1];
      }
      if n in refs {
        var m :| 0 <= m < |refs| && refs[m] == n;
        assert r[if m < k then m else m + 1] == n;
      }
    }
    forall p, q | 0 <= p < q < |r| && r[p] > JUNCTION_START
      ensures r[p] != r[q]
    {
      var p', q' := if p < k then p else p - 1, if q < k then q else q - 1;
      assert p != k ==> r[p] == refs[p'];
      assert q != k ==> r[q] == refs[q'];
    }
  }

  /** One more junction on one road. */
  lemma PlacedWith(modified: map<int, Way>, last: int, id: int, refs: seq<int>, w: Way)
    requires Placed(modified, last) && last >= JUNCTION_START
    requires refs == if id in modified then modified[id].refs else refs
    requires id !in modified ==> forall n :: n in refs ==> n <= JUNCTION_START
    requires Once(w.refs) && forall n :: n in w.refs <==> n == last + 1 || n in refs
    ensures Placed(modified[id := w], last + 1)
  {
    hide Once;
    var after := modified[id := w];
    forall k, n
      ensures On(after, k, n) <==> On(modified, k, n) || (k == id && n == last + 1)
    {
    }
    assert On(after, id, last + 1);
    forall k | k in after
      ensures (exists n :: On(after, k, n)) && Once(after[k].refs)
    {
      if k != id {
        var n :| On(modified, k, n);
        assert On(after, k, n);
      }
    }
    forall n | JUNCTION_START < n <= last + 1
      ensures OnSome(after, n)
    {
      if n <= last {
        assert OnSome(modified, n);
        var k :| On(modified, k, n);
        assert On(after, k, n);
      }
    }
  }

  /** A new junction is on the road it is put on, and no other. */
  lemma JunctionIsPlaced(
    hwNodes: map<int, Point>, hwWays: seq<Way>, stNodes: map<int, Point>, net: Net, s: Seg, t: real, net': Net)
    requires Separate(hwNodes, hwWays, stNodes) && NetInv(hwNodes, hwWays, net) && IsSegment(hwNodes, hwWays, s)
    requires Placed(net.modified, net.jid) && AddsJunction(net, s, t, net')
    ensures Placed(net'.modified, net'.jid)
  {
    hide Separate, NetInv, Originals, Spliced, Along, AddsJunction, Routable, IsSegment, Placed, Once, InsertAt;
    JunctionIdsAreHigh(hwNodes, hwWays, net);
    var n := SegmentPlace(hwNodes, hwWays, s);
    JunctionShape(net, s, t, net');
    CurrentOriginals(hwNodes, hwWays, stNodes, net, s.way);
    CurrentOnce(hwNodes, hwWays, stNodes, net, s.way);
    var refs := CurrentRefs(net.modified, s.way);
    var k := SpliceInserts(refs, s.way.refs, n, net'.jid, net'.nodes, Along(net.nodes[s.a], net.nodes[s.b], t),
                           CurrentRefs(net'.modified, s.way));
    InsertedOnce(refs, k, net'.jid);
    PlacedWith(net.modified, net.jid, s.way.id, refs, net'.modified[s.way.id]);
  }

  /** More nodes do not disturb a road's course. */
  lemma CourseStays(nodes: map<int, Point>, nodes': map<int, Point>, road: Way, refs: seq<int>)
    requires forall n :: n in nodes ==> n in nodes' && nodes'[n] == nodes[n]
    requires Course(nodes, road, refs)
    ensures Course(nodes', road, refs)
  {
    hide OnLine, DegDist, Woven;
    var gaps :| WellWoven(nodes, road.refs, gaps, refs);
    forall i | 0 <= i < |gaps|
      ensures Orderly(nodes', road.refs[i], road.refs[i + 1], gaps[i])
    {
      assert Orderly(nodes, road.refs[i], road.refs[i + 1], gaps[i]);
    }
    assert WellWoven(nodes', road.refs, gaps, refs);
  }

  /** A junction on a clear segment is never refused, and keeps the road's course. */
  lemma JunctionKeepsCourse(
    nodes: map<int, Point>, road: Way, refs: seq<int>, n: nat, x: int, t: real, pos: Point)
    requires NoJunctions(road.refs) && Course(nodes, road, refs) && 0.0 <= t <= 1.0 && x > JUNCTION_START
    requires ClearAt(road.refs, n) && road.refs[n] in nodes && road.refs[n + 1] in nodes && x !in nodes
    requires pos == Along(nodes[road.refs[n]], nodes[road.refs[n + 1]], t)
    ensures var r := Spliced(refs, road.refs[n], road.refs[n + 1], x, nodes[x := pos], pos);
            r.Some? && Course(nodes[x := pos], road, r.value)
  {
    var nodes', a, b := nodes[x := pos], road.refs[n], road.refs[n + 1];
    CourseStays(nodes, nodes', road, refs);
    var gaps :| WellWoven(nodes', road.refs, gaps, refs);
    assert Orderly(nodes', a, b, gaps[n]);
    SpliceIsWoven(nodes', road.refs, gaps, n, x, pos);
    GapStaysOrderly(nodes', a, b, gaps[n], x, t);
    var gaps' := gaps[n := GapWith(nodes', nodes'[a], gaps[n], x, pos)];
    hide OnLine, DegDist, Woven, GapWith, Spliced, NoJunctions, Along;
    assert WellWoven(nodes', road.refs, gaps', Woven(road.refs, gaps'));
  }

  /** A new junction on a clear segment is never refused. */
  lemma ClearSegmentTakesJunction(roads: set<Way>, net: Net, s: Seg, t: real)
    requires Courses(roads, net) && s.way in roads && NoJunctions(s.way.refs) && OnClear(s)
    requires s.a in net.nodes && s.b in net.nodes && net.jid >= JUNCTION_START && net.jid + 1 !in net.nodes
    requires 0.0 <= t <= 1.0
    ensures WithJunction(net, s.way, s.a, s.b, t).Some?
  {
    hide NoJunctions, ClearAt, Course, Spliced, Along;
    var n: nat :| n + 1 < |s.way.refs| && ClearAt(s.way.refs, n)
                  && s.way.refs[n] == s.a && s.way.refs[n + 1] == s.b;
    var x, pos := net.jid + 1, Along(net.nodes[s.a], net.nodes[s.b], t);
    JunctionKeepsCourse(net.nodes, s.way, CurrentRefs(net.modified, s.way), n, x, t, pos);
  }

  /** A new junction keeps the courses of the roads of a set, if it is on none of them or on a clear segment. */
  lemma JunctionKeepsCourses(
    hwNodes: map<int, Point>, hwWays: seq<Way>, stNodes: map<int, Point>, roads: set<Way>,
    net: Net, s: Seg, t: real, net': Net)
    requires Separate(hwNodes, hwWays, stNodes) && IsSegment(hwNodes, hwWays, s)
    requires Courses(roads, net) && (forall road :: road in roads ==> road in hwWays)
    requires s.way in roads ==> OnClear(s) && NoJunctions(s.way.refs)
    requires AddsJunction(net, s, t, net') && net.jid >= JUNCTION_START && net.jid + 1 !in net.nodes
    requires 0.0 <= t <= 1.0
    ensures Courses(roads, net')
  {
    hide NoJunctions, ClearAt, Course, Spliced, Along, Routable, IsSegment, AddsJunction, Separate;
    var m := SegmentPlace(hwNodes, hwWays, s);
    JunctionShape(net, s, t, net');
    forall road | road in roads
      ensures Course(net'.nodes, road, CurrentRefs(net'.modified, road))
    {
      if road.id == s.way.id {
        UniqueWay(hwNodes, hwWays, stNodes, road, s.way);
        var n: nat :| n + 1 < |s.way.refs| && ClearAt(s.way.refs, n)
                  && s.way.refs[n] == s.a && s.way.refs[n + 1] == s.b;
        JunctionKeepsCourse(net.nodes, road, CurrentRefs(net.modified, road), n, net'.jid, t,
                            Along(net.nodes[s.a], net.nodes[s.b], t));
      } else {
        CourseStays(net.nodes, net'.nodes, road, CurrentRefs(net.modified, road));
      }
    }
  }
}
