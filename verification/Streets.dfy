/** One driver street, with its ends joined to the roads (maps/scripts/driver-streets-to-osc.py, build). */
module Streets {
  import opened Common
  import opened Geometry
  import opened SegmentIndex
  import opened Splice
  import opened Weave
  import opened StreetJoin

  /** The map, the streets' nodes, and the cosine of a latitude. */
  datatype Input = Input(hwNodes: map<int, Point>, hwWays: seq<Way>, stNodes: map<int, Point>, cosine: real -> real)

  ghost predicate Apart(inp: Input) {
    Separate(inp.hwNodes, inp.hwWays, inp.stNodes)
  }

  /** A routable segment is within the radius of p. */
  ghost predicate SomeNear(inp: Input, p: Point, radius: real) {
    exists s :: IsSegment(inp.hwNodes, inp.hwWays, s) && Within(inp.cosine(p.lat), p, inp.hwNodes, s, radius)
  }

  function DistTo(inp: Input, p: Point, s: Seg): real
    requires s.a in inp.hwNodes && s.b in inp.hwNodes
  {
    SegDist(inp.cosine(p.lat), p, inp.hwNodes[s.a], inp.hwNodes[s.b])
  }

  /** A routable segment within CONNECT_M of the point, and none is nearer, or as near on a road with a lower id. */
  ghost predicate NearestTo(inp: Input, p: Point, s: Seg) {
    && IsSegment(inp.hwNodes, inp.hwWays, s) && Within(inp.cosine(p.lat), p, inp.hwNodes, s, CONNECT_M)
    && forall o :: IsSegment(inp.hwNodes, inp.hwWays, o) && Within(inp.cosine(p.lat), p, inp.hwNodes, o, CONNECT_M) ==>
         NoFarther(DistTo(inp, p, s), s.way.id, DistTo(inp, p, o), o.way.id)
  }

  /** The share t of a segment of squared length len is within SNAP_M of its start. */
  predicate Snaps(t: real, len: real) {
    Square(t) * len <= Square(SNAP_M)
  }

  /** A point's nearest segment takes a junction for it. */
  ghost predicate TakesJunction(inp: Input, p: Point, s: Seg) {
    && NearestTo(inp, p, s)
    && var k, a, b := inp.cosine(p.lat), inp.hwNodes[s.a], inp.hwNodes[s.b];
       var t, len := Project(k, p, a, b), DistSquared(k, a, b);
       !Snaps(t, len) && !Snaps(1.0 - t, len)
  }

  /** Every segment of the road that may take a junction for a street node is, at some place of the road, the first
      with either of its nodes. */
  ghost predicate Clear(inp: Input, road: Way) {
    && Routable(road)
    && forall n, s: Seg :: n in inp.stNodes && s.way == road && TakesJunction(inp, inp.stNodes[n], s) ==> OnClear(s)
  }

  ghost function ClearRoads(inp: Input): set<Way> {
    set road | road in inp.hwWays && Clear(inp, road) && road.refs != []
  }

  /** A road that passes no node twice is clear. */
  lemma SimpleRoadIsClear(inp: Input, road: Way)
    requires road in inp.hwWays && Routable(road)
    requires forall i, j :: 0 <= i < j < |road.refs| ==> road.refs[i] != road.refs[j]
    ensures Clear(inp, road)
  {
    hide Routable, SomeNear, DistTo, Within, Project, DistSquared, Snaps, NoFarther;
    forall n, s: Seg | n in inp.stNodes && s.way == road && TakesJunction(inp, inp.stNodes[n], s)
      ensures OnClear(s)
    {
      var m := SegmentPlace(inp.hwNodes, inp.hwWays, s);
      assert ClearAt(road.refs, m);
    }
  }

  /** So is a road that comes back to its first node at its last and passes no other node twice, while nothing is to
      join the segment that closes it. */
  lemma ClosedRoadIsClear(inp: Input, road: Way)
    requires road in inp.hwWays && Routable(road) && |road.refs| >= 2
    requires forall i, j :: 0 <= i < j < |road.refs| - 1 ==> road.refs[i] != road.refs[j]
    requires road.refs[|road.refs| - 1] == road.refs[0]
    requires var last := |road.refs| - 1;
             forall n :: n in inp.stNodes ==>
               !TakesJunction(inp, inp.stNodes[n], Seg(road, road.refs[last - 1], road.refs[last]))
    ensures Clear(inp, road)
  {
    hide Routable, SomeNear, DistTo, Within, Project, DistSquared, Snaps, NoFarther;
    forall n, s: Seg | n in inp.stNodes && s.way == road && TakesJunction(inp, inp.stNodes[n], s)
      ensures OnClear(s)
    {
      var m := SegmentPlace(inp.hwNodes, inp.hwWays, s);
      assert s == Seg(road, road.refs[m], road.refs[m + 1]);
      assert ClearAt(road.refs, m);
    }
  }

  /** Every node that is not on the map is a junction among the created nodes, which are not on the map. */
  ghost predicate Recorded(inp: Input, net: Net) {
    && (forall n :: n in net.nodes && n !in inp.hwNodes ==>
          n > JUNCTION_START && n in net.created && net.created[n] == net.nodes[n])
    && (forall n :: n in net.created ==> n !in inp.hwNodes && n <= net.jid)
  }

  /** What build keeps when the id ranges are apart. */
  ghost predicate Kept(inp: Input, net: Net) {
    && NetInv(inp.hwNodes, inp.hwWays, net) && Courses(ClearRoads(inp), net) && Recorded(inp, net)
    && Placed(net.modified, net.jid)
  }

  /** The node by which a point is joined to a segment: an end of it within SNAP_M of the foot of the perpendicular,
      the first before the second, and otherwise a created node at the foot. */
  ghost predicate JoinedBy(inp: Input, created: map<int, Point>, p: Point, s: Seg, node: int) {
    && s.a in inp.hwNodes && s.b in inp.hwNodes
    && var k, a, b := inp.cosine(p.lat), inp.hwNodes[s.a], inp.hwNodes[s.b];
    var t, len := Project(k, p, a, b), DistSquared(k, a, b);
    if Snaps(t, len) then node == s.a
    else if Snaps(1.0 - t, len) then node == s.b
    else node > JUNCTION_START && node in created && created[node] == Along(a, b, t)
  }

  /** The node is on the road of a nearest segment, which the point is joined to by it. */
  ghost predicate JoinedTo(inp: Input, created: map<int, Point>, modified: map<int, Way>, p: Point, node: int) {
    exists s :: NearestTo(inp, p, s) && JoinedBy(inp, created, p, s, node) && node in CurrentRefs(modified, s.way)
  }

  function EndNode(refs: seq<int>, atStart: bool): int
    requires refs != []
  {
    if atStart then refs[0] else refs[|refs| - 1]
  }

  function Extend(refs: seq<int>, atStart: bool, x: int): seq<int> {
    if atStart then [x] + refs else refs + [x]
  }

  /** No road loses a node, and no junction moves. */
  ghost predicate Extends(inp: Input, before: Net, after: Net) {
    && Grows(inp.hwWays, before, after) && before.jid <= after.jid
    && forall n :: n in before.created && n > JUNCTION_START ==>
        n in after.created && after.created[n] == before.created[n]
  }

  lemma JoinedStays(inp: Input, before: Net, after: Net, p: Point, node: int)
    requires Extends(inp, before, after) && JoinedTo(inp, before.created, before.modified, p, node)
    ensures JoinedTo(inp, after.created, after.modified, p, node)
  {
    hide CurrentRefs, IsSegment, Within, DistTo, Project, DistSquared, Snaps, Along;
    var s :| NearestTo(inp, p, s) && JoinedBy(inp, before.created, p, s, node) &&
        node in CurrentRefs(before.modified, s.way);
    SegmentWay(inp, s);
    assert JoinedBy(inp, after.created, p, s, node);
  }

  lemma SegmentWay(inp: Input, s: Seg)
    requires IsSegment(inp.hwNodes, inp.hwWays, s)
    ensures s.way in inp.hwWays && Routable(s.way)
  {
  }

  lemma ExtendsTransitive(inp: Input, a: Net, b: Net, c: Net)
    requires Extends(inp, a, b) && Extends(inp, b, c)
    ensures Extends(inp, a, c)
  {
    hide CurrentRefs;
  }

  /** An old node of a road is still on it. */
  lemma EndpointStays(inp: Input, net: Net, s: Seg)
    requires Apart(inp) && NetInv(inp.hwNodes, inp.hwWays, net) && IsSegment(inp.hwNodes, inp.hwWays, s)
    ensures s.a in CurrentRefs(net.modified, s.way) && s.b in CurrentRefs(net.modified, s.way)
  {
    hide Separate, NetInv, Originals, IsSegment, Routable, CurrentRefs;
    var n := SegmentPlace(inp.hwNodes, inp.hwWays, s);
    CurrentOriginals(inp.hwNodes, inp.hwWays, inp.stNodes, net, s.way);
    var refs := CurrentRefs(net.modified, s.way);
    var p := OriginalsInOrder(refs, n);
    var q := OriginalsInOrder(refs, n + 1);
  }

  /** The join of one end: the network after it and the node joined to. */
  datatype Join = Join(net: Net, node: int)

  /** What is created: nothing, or the node of the join under the next junction id. */
  ghost predicate CreatesAtMost(net: Net, net': Net, node: int) {
    && net.jid <= net'.jid <= net.jid + 1 && (net'.jid > net.jid ==> node == net'.jid)
    && (forall n :: n in net'.created <==> n in net.created || net.jid < n <= net'.jid)
    && (forall n :: n in net.created ==> net'.created[n] == net.created[n])
  }

  /** What joining a point to its nearest segment does when the id ranges are apart. */
  ghost predicate JoinsWell(inp: Input, net: Net, p: Point, s: Seg, j: Join) {
    Apart(inp) && Kept(inp, net) ==>
      && Kept(inp, j.net) && Extends(inp, net, j.net) && CreatesAtMost(net, j.net, j.node)
      && JoinedBy(inp, j.net.created, p, s, j.node) && j.node in CurrentRefs(j.net.modified, s.way)
      && j.node !in inp.stNodes
  }

  /** The join of a point to a segment at share t: by an end of the segment within SNAP_M of the foot, with nothing
      changed, or by a junction at the foot, spliced into the road. */
  ghost predicate Joins(inp: Input, net: Net, k: real, s: Seg, t: real, j: Join)
    requires s.a in net.nodes && s.b in net.nodes
  {
    var len := DistSquared(k, net.nodes[s.a], net.nodes[s.b]);
    if Snaps(t, len) then j == Join(net, s.a)
    else if Snaps(1.0 - t, len) then j == Join(net, s.b)
    else
      && WithJunction(net, s.way, s.a, s.b, t) == Some(j.net) && j.node == j.net.jid == net.jid + 1
      && j.node in j.net.nodes && j.net.nodes[j.node] == Along(net.nodes[s.a], net.nodes[s.b], t)
      && j.node in j.net.created && j.net.created[j.node] == Along(net.nodes[s.a], net.nodes[s.b], t)
  }

  /** The node a street end is joined to: the nearest segment's own node within SNAP_M of the foot of the
      perpendicular, or a new junction there. */
  method JoinTo(inp: Input, net: Net, at: Point, hit: Near) returns (r: Option<Join>)
    requires NearestTo(inp, at, hit.segment) && IsSegment(inp.hwNodes, inp.hwWays, hit.segment) && Cosine(inp.cosine)
    requires exists n :: n in inp.stNodes && inp.stNodes[n] == at
    requires hit.t == Project(inp.cosine(at.lat), at, inp.hwNodes[hit.segment.a], inp.hwNodes[hit.segment.b])
    requires forall n :: n in inp.hwNodes ==> n in net.nodes
    ensures r.Some? ==> Joins(inp, net, inp.cosine(at.lat), hit.segment, hit.t, r.value)
    ensures r.Some? ==> forall n :: n in inp.hwNodes ==> n in r.value.net.nodes
    ensures r.Some? ==> r.value.net.report == net.report.(junctions := r.value.net.report.junctions)
    ensures r.Some? ==> JoinsWell(inp, net, at, hit.segment, r.value)
    ensures r.None? && Apart(inp) && Kept(inp, net) ==> !Clear(inp, hit.segment.way)
  {
    hide IsSegment, Routable, DistSquared, Square, Along, Spliced, Apart, Kept, Clear, JoinsWell, Project, NearestTo;
    var s, t, k := hit.segment, hit.t, inp.cosine(at.lat);
    var n := SegmentPlace(inp.hwNodes, inp.hwWays, s);
    var len := DistSquared(k, net.nodes[s.a], net.nodes[s.b]);
    SameLength(inp, net, at, s, t);
    if Square(t) * len <= Square(SNAP_M) {
      r := Some(Join(net, s.a));
    } else if Square(1.0 - t) * len <= Square(SNAP_M) {
      r := Some(Join(net, s.b));
    } else {
      var net' := AddJunction(net, s, t);
      JunctionIsTaken(inp, net, at, s, t);
      if net'.None? {
        return None;
      }
      r := Some(Join(net'.value, net'.value.jid));
    }
    JoinIsWell(inp, net, at, s, t, r.value);
  }

  /** The steps of a new junction. */
  method AddJunction(net: Net, s: Seg, t: real) returns (r: Option<Net>)
    requires s.a in net.nodes && s.b in net.nodes
    ensures r == WithJunction(net, s.way, s.a, s.b, t)
    ensures r.Some? ==> r.value.report == net.report.(junctions := r.value.report.junctions)
    ensures r.Some? ==> forall n :: n in net.nodes ==> n in r.value.nodes
  {
    hide Along, Spliced;
    var x := net.jid + 1;
    var pos := Along(net.nodes[s.a], net.nodes[s.b], t);
    var nodes := net.nodes[x := pos];
    var cur := if s.way.id in net.modified then net.modified[s.way.id]
               else Way(s.way.id, s.way.refs, s.way.tags, s.way.version + 1);
    var refs := InsertOnSegment(cur.refs, s.a, s.b, x, nodes, pos);
    if refs.None? {
      return None;
    }
    var modified := net.modified[s.way.id := Way(s.way.id, refs.value, cur.tags, cur.version)];
    return Some(Net(net.created[x := pos], nodes, modified,
                    net.report.(junctions := net.report.junctions + 1), x));
  }

  /** The next junction id is no node's. */
  lemma NextIdIsFree(inp: Input, net: Net)
    requires Apart(inp) && Kept(inp, net)
    ensures net.jid >= JUNCTION_START && net.jid + 1 !in net.nodes && net.jid + 1 !in inp.stNodes
    ensures net.jid + 1 !in inp.hwNodes
  {
    hide Courses, IsRevision, Placed;
  }

  /** On a clear road, a segment that takes a junction for a street node is clear. */
  lemma TakenIsClear(inp: Input, p: Point, s: Seg)
    requires Apart(inp) && TakesJunction(inp, p, s) && (exists n :: n in inp.stNodes && inp.stNodes[n] == p)
    ensures s.way in ClearRoads(inp) ==> OnClear(s)
    ensures NoJunctions(s.way.refs)
  {
    hide NearestTo, Project, DistSquared, Snaps, OnClear;
    var m := NearestPlace(inp, p, s);
    NoneIsJunction(inp, s.way);
  }

  lemma NearestPlace(inp: Input, p: Point, s: Seg) returns (n: nat)
    requires NearestTo(inp, p, s)
    ensures s.way in inp.hwWays && Routable(s.way)
  {
    hide DistTo, Within;
    n := SegmentPlace(inp.hwNodes, inp.hwWays, s);
  }

  lemma NoneIsJunction(inp: Input, road: Way)
    requires Apart(inp) && road in inp.hwWays
    ensures NoJunctions(road.refs)
  {
    var i :| 0 <= i < |inp.hwWays| && inp.hwWays[i] == road;
  }

  lemma JunctionIsKept(inp: Input, net: Net, p: Point, s: Seg, t: real, net': Net)
    requires Apart(inp) && Kept(inp, net) && IsSegment(inp.hwNodes, inp.hwWays, s) && 0.0 <= t <= 1.0
    requires TakesJunction(inp, p, s) && exists n :: n in inp.stNodes && inp.stNodes[n] == p
    requires AddsJunction(net, s, t, net')
    ensures Kept(inp, net')
  {
    ClearAreRoads(inp);
    hide Separate, NetInv, Courses, IsSegment, AddsJunction, Along, ClearRoads, TakesJunction, OnClear, NoJunctions;
    hide Placed;
    NextIdIsFree(inp, net);
    TakenIsClear(inp, p, s);
    JunctionShape(net, s, t, net');
    JunctionKeepsNet(inp.hwNodes, inp.hwWays, inp.stNodes, net, s, t, net');
    JunctionIsPlaced(inp.hwNodes, inp.hwWays, inp.stNodes, net, s, t, net');
    JunctionKeepsCourses(inp.hwNodes, inp.hwWays, inp.stNodes, ClearRoads(inp), net, s, t, net');
  }

  lemma ClearAreRoads(inp: Input)
    ensures forall road :: road in ClearRoads(inp) ==> road in inp.hwWays
  {
  }

  lemma JunctionCreates(net: Net, s: Seg, t: real, net': Net)
    requires AddsJunction(net, s, t, net') && forall n :: n in net.created ==> n <= net.jid
    ensures CreatesAtMost(net, net', net'.jid)
    ensures forall n :: n in net.created ==> n in net'.created && net'.created[n] == net.created[n]
  {
    hide AddsJunction, Along;
    JunctionShape(net, s, t, net');
  }

  lemma CreatedAreOld(inp: Input, net: Net)
    requires Kept(inp, net)
    ensures forall n :: n in net.created ==> n <= net.jid
  {
    hide NetInv, Courses, Placed;
  }

  lemma JunctionExtends(inp: Input, net: Net, s: Seg, t: real, net': Net)
    requires Apart(inp) && Kept(inp, net) && IsSegment(inp.hwNodes, inp.hwWays, s)
    requires AddsJunction(net, s, t, net')
    ensures Extends(inp, net, net') && CreatesAtMost(net, net', net'.jid)
    ensures net'.jid in CurrentRefs(net'.modified, s.way) && net'.jid !in inp.stNodes && net'.jid > JUNCTION_START
  {
    NextIdIsFree(inp, net);
    CreatedAreOld(inp, net);
    hide Separate, NetInv, Courses, Recorded, IsSegment, AddsJunction, Along, Grows, Routable, CurrentRefs, Placed;
    JunctionCreates(net, s, t, net');
    NextJid(net, s, t, net');
    JunctionGrows(inp.hwNodes, inp.hwWays, inp.stNodes, net, s, t, net');
  }

  lemma NextJid(net: Net, s: Seg, t: real, net': Net)
    requires AddsJunction(net, s, t, net')
    ensures net'.jid == net.jid + 1
  {
    hide Spliced, Along;
  }

  lemma JunctionIsTaken(inp: Input, net: Net, p: Point, s: Seg, t: real)
    requires IsSegment(inp.hwNodes, inp.hwWays, s) && 0.0 <= t <= 1.0
    requires s.a in net.nodes && s.b in net.nodes
    requires Kept(inp, net) ==> TakesJunction(inp, p, s)
    requires exists n :: n in inp.stNodes && inp.stNodes[n] == p
    ensures Apart(inp) && Kept(inp, net) && Clear(inp, s.way) ==> WithJunction(net, s.way, s.a, s.b, t).Some?
  {
    if Apart(inp) && Kept(inp, net) && Clear(inp, s.way) {
      NextIdIsFree(inp, net);
      SegmentWay(inp, s);
      assert s.way.refs != [];
      assert s.way in ClearRoads(inp) && Courses(ClearRoads(inp), net);
      hide Apart, Kept, Courses, IsSegment, WithJunction, Clear, ClearRoads, TakesJunction, OnClear, NoJunctions;
      TakenIsClear(inp, p, s);
      ClearSegmentTakesJunction(ClearRoads(inp), net, s, t);
    }
  }

  /** The nodes of the map are where they were. */
  lemma MapNodesStay(inp: Input, net: Net, s: Seg)
    requires Kept(inp, net) && IsSegment(inp.hwNodes, inp.hwWays, s)
    ensures s.a in inp.hwNodes && s.b in inp.hwNodes && s.a in net.nodes && s.b in net.nodes
    ensures net.nodes[s.a] == inp.hwNodes[s.a] && net.nodes[s.b] == inp.hwNodes[s.b]
    ensures NetInv(inp.hwNodes, inp.hwWays, net)
  {
    hide Courses, Recorded, IsRevision, Placed;
  }

  /** Whether a junction is taken is read off the network as off the map. */
  lemma SameLength(inp: Input, net: Net, p: Point, s: Seg, t: real)
    requires NearestTo(inp, p, s) && s.a in inp.hwNodes && s.b in inp.hwNodes && s.a in net.nodes && s.b in net.nodes
    requires t == Project(inp.cosine(p.lat), p, inp.hwNodes[s.a], inp.hwNodes[s.b])
    ensures var len := DistSquared(inp.cosine(p.lat), net.nodes[s.a], net.nodes[s.b]);
            Kept(inp, net) && !Snaps(t, len) && !Snaps(1.0 - t, len) ==> TakesJunction(inp, p, s)
  {
    if Kept(inp, net) {
      NearestIsSegment(inp, p, s);
      MapNodesStay(inp, net, s);
      hide NearestTo, Kept, Project, DistSquared, Snaps;
    }
  }

  lemma NearestIsSegment(inp: Input, p: Point, s: Seg)
    requires NearestTo(inp, p, s)
    ensures IsSegment(inp.hwNodes, inp.hwWays, s)
  {
    hide IsSegment, Within, DistTo;
  }

  lemma SameExtends(inp: Input, net: Net, node: int)
    ensures Extends(inp, net, net) && CreatesAtMost(net, net, node)
  {
  }

  lemma MapNodeIsNoStreets(inp: Input, n: int)
    requires Apart(inp) && n in inp.hwNodes
    ensures n !in inp.stNodes
  {
  }

  lemma OwnNodeJoins(inp: Input, net: Net, p: Point, s: Seg, t: real, j: Join)
    requires Apart(inp) && Kept(inp, net) && IsSegment(inp.hwNodes, inp.hwWays, s)
    requires s.a in inp.hwNodes && s.b in inp.hwNodes &&
        t == Project(inp.cosine(p.lat), p, inp.hwNodes[s.a], inp.hwNodes[s.b])
    requires var len := DistSquared(inp.cosine(p.lat), inp.hwNodes[s.a], inp.hwNodes[s.b]);
             if Snaps(t, len) then j == Join(net, s.a) else Snaps(1.0 - t, len) && j == Join(net, s.b)
    ensures JoinsWell(inp, net, p, s, j)
  {
    hide Apart, Kept, IsSegment, Snaps, DistSquared, Project, Along, Extends, CreatesAtMost, CurrentRefs;
    MapNodesStay(inp, net, s);
    EndpointStays(inp, net, s);
    SameExtends(inp, net, j.node);
    MapNodeIsNoStreets(inp, j.node);
  }

  lemma JunctionJoins(inp: Input, net: Net, p: Point, s: Seg, t: real, j: Join)
    requires Apart(inp) && Kept(inp, net) && IsSegment(inp.hwNodes, inp.hwWays, s) && 0.0 <= t <= 1.0
    requires s.a in inp.hwNodes && s.b in inp.hwNodes &&
        t == Project(inp.cosine(p.lat), p, inp.hwNodes[s.a], inp.hwNodes[s.b])
    requires TakesJunction(inp, p, s) && exists n :: n in inp.stNodes && inp.stNodes[n] == p
    requires AddsJunction(net, s, t, j.net) && j.node == j.net.jid && j.node in j.net.created
    requires j.net.created[j.node] == Along(inp.hwNodes[s.a], inp.hwNodes[s.b], t)
    ensures JoinsWell(inp, net, p, s, j)
  {
    hide Apart, Kept, IsSegment, Snaps, DistSquared, Project, Along, Extends, CreatesAtMost, CurrentRefs, AddsJunction;
    hide NearestTo;
    JunctionIsKept(inp, net, p, s, t, j.net);
    JunctionExtends(inp, net, s, t, j.net);
  }

  lemma JoinIsWell(inp: Input, net: Net, p: Point, s: Seg, t: real, j: Join)
    requires IsSegment(inp.hwNodes, inp.hwWays, s) && 0.0 <= t <= 1.0 && s.a in net.nodes && s.b in net.nodes
    requires t == Project(inp.cosine(p.lat), p, inp.hwNodes[s.a], inp.hwNodes[s.b])
    requires Joins(inp, net, inp.cosine(p.lat), s, t, j) && NearestTo(inp, p, s)
    requires exists n :: n in inp.stNodes && inp.stNodes[n] == p
    ensures JoinsWell(inp, net, p, s, j)
  {
    if Apart(inp) && Kept(inp, net) {
      hide Apart, Kept, IsSegment, Snaps, DistSquared, Project, Along, WithJunction, JoinsWell, NearestTo;
      MapNodesStay(inp, net, s);
      var len := DistSquared(inp.cosine(p.lat), net.nodes[s.a], net.nodes[s.b]);
      if Snaps(t, len) || Snaps(1.0 - t, len) {
        OwnNodeJoins(inp, net, p, s, t, j);
      } else {
        SameLength(inp, net, p, s, t);
        JunctionJoins(inp, net, p, s, t, j);
      }
    }
  }

  // ----- one street -----

  /** One end after joining: the network, the street's refs, and whether the end stayed open. */
  datatype End = End(net: Net, refs: seq<int>, open: bool)

  /** An end stays open exactly when no routable segment is within CONNECT_M of it; otherwise the street is
      extended by the node that joins the end to its nearest segment. */
  ghost predicate EndDone(inp: Input, net: Net, refs: seq<int>, atStart: bool, e: End)
    requires refs != [] && EndNode(refs, atStart) in inp.stNodes
  {
    var p := inp.stNodes[EndNode(refs, atStart)];
    && (forall n :: n in inp.hwNodes ==> n in e.net.nodes)
    && (e.open <==> !SomeNear(inp, p, CONNECT_M))
    && (e.open ==> e.refs == refs && e.net == net.(report := net.report.(endsOpen := net.report.endsOpen + 1)))
    && (!e.open ==>
          && (e.refs == refs || (e.refs != [] && e.refs == Extend(refs, atStart, EndNode(e.refs, atStart))))
          && e.net.report == net.report.(junctions := e.net.report.junctions,
                                         endsConnected := net.report.endsConnected + |e.refs| - |refs|))
    && (Apart(inp) && Kept(inp, net) ==>
          && Kept(inp, e.net) && Extends(inp, net, e.net)
          && (!e.open ==>
                && |e.refs| == |refs| + 1 && e.refs == Extend(refs, atStart, EndNode(e.refs, atStart))
                && JoinedTo(inp, e.net.created, e.net.modified, p, EndNode(e.refs, atStart))
                && CreatesAtMost(net, e.net, EndNode(e.refs, atStart))))
  }

  method JoinEnd(idx: Index, inp: Input, net: Net, refs: seq<int>, atStart: bool) returns (r: Option<End>)
    requires idx.Valid() && idx.nodes == inp.hwNodes && idx.ways == inp.hwWays && Cosine(inp.cosine)
    requires refs != [] && EndNode(refs, atStart) in inp.stNodes
    requires forall n :: n in inp.hwNodes ==> n in net.nodes
    ensures r.Some? ==> EndDone(inp, net, refs, atStart, r.value)
    ensures r.None? && Apart(inp) && Kept(inp, net) ==>
              exists w :: w in inp.hwWays && Routable(w) && !Clear(inp, w)
  {
    var at := inp.stNodes[EndNode(refs, atStart)];
    var hit := NearestSegment(idx, inp, at);
    if hit.None? {
      var open := net.(report := net.report.(endsOpen := net.report.endsOpen + 1));
      StaysOpen(inp, net, open);
      OpenEnd(inp, net, refs, atStart, open);
      hide *;
      return Some(End(open, refs, true));
    }
    hide Apart, Kept, Extends, SomeNear, Within, Project, IsSegment, Clear, Routable, JoinedTo, JoinsWell, Joins;
    hide CreatesAtMost, NearestTo, EndDone;
    var joined := JoinTo(inp, net, at, hit.value);
    if joined.None? {
      var n := SegmentPlace(inp.hwNodes, inp.hwWays, hit.value.segment);
      return None;
    }
    var Join(net', node) := joined.value;
    JoinsNearest(inp, net, at, hit.value.segment, joined.value);
    if node == EndNode(refs, atStart) {
      SameEnd(inp, net, refs, atStart, joined.value);
      return Some(End(net', refs, false));
    }
    var counted := net'.(report := net'.report.(endsConnected := net'.report.endsConnected + 1));
    CountingKeeps(inp, net, net', counted, node);
    JoinedEnd(inp, net, refs, atStart, joined.value, counted);
    return Some(End(counted, Extend(refs, atStart, node), false));
  }

  /** The lookup of an end. */
  method NearestSegment(idx: Index, inp: Input, at: Point) returns (hit: Option<Near>)
    requires idx.Valid() && idx.nodes == inp.hwNodes && idx.ways == inp.hwWays && Cosine(inp.cosine)
    ensures hit.Some? <==> SomeNear(inp, at, CONNECT_M)
    ensures hit.Some? ==> NearestTo(inp, at, hit.value.segment)
    ensures hit.Some? ==> IsSegment(inp.hwNodes, inp.hwWays, hit.value.segment)
    ensures hit.Some? ==>
              var s := hit.value.segment;
              hit.value.t == Project(inp.cosine(at.lat), at, inp.hwNodes[s.a], inp.hwNodes[s.b])
  {
    hide SegDist, Project, IsSegment;
    hit := idx.Nearest(inp.cosine, at, CONNECT_M);
  }

  lemma OpenEnd(inp: Input, net: Net, refs: seq<int>, atStart: bool, open: Net)
    requires refs != [] && EndNode(refs, atStart) in inp.stNodes
    requires !SomeNear(inp, inp.stNodes[EndNode(refs, atStart)], CONNECT_M)
    requires forall n :: n in inp.hwNodes ==> n in net.nodes
    requires open == net.(report := net.report.(endsOpen := net.report.endsOpen + 1))
    requires (Kept(inp, net) ==> Kept(inp, open)) && Extends(inp, net, open)
    ensures EndDone(inp, net, refs, atStart, End(open, refs, true))
  {
    hide Apart, Kept, Extends, SomeNear, JoinedTo, CreatesAtMost;
  }

  /** What joining an end to its nearest segment gives. */
  ghost predicate EndJoined(inp: Input, net: Net, refs: seq<int>, atStart: bool, j: Join)
    requires refs != [] && EndNode(refs, atStart) in inp.stNodes
  {
    var p := inp.stNodes[EndNode(refs, atStart)];
    && SomeNear(inp, p, CONNECT_M)
    && (forall n :: n in inp.hwNodes ==> n in j.net.nodes)
    && j.net.report == net.report.(junctions := j.net.report.junctions)
    && (Apart(inp) && Kept(inp, net) ==>
          && Kept(inp, j.net) && Extends(inp, net, j.net) && CreatesAtMost(net, j.net, j.node)
          && JoinedTo(inp, j.net.created, j.net.modified, p, j.node) && j.node !in inp.stNodes)
  }

  /** The node is the end's own, which does not happen with the id ranges apart. */
  lemma SameEnd(inp: Input, net: Net, refs: seq<int>, atStart: bool, j: Join)
    requires refs != [] && EndNode(refs, atStart) in inp.stNodes
    requires EndJoined(inp, net, refs, atStart, j) && j.node == EndNode(refs, atStart)
    ensures EndDone(inp, net, refs, atStart, End(j.net, refs, false))
  {
    hide Apart, Kept, Extends, SomeNear, JoinedTo, CreatesAtMost;
  }

  lemma JoinedEnd(inp: Input, net: Net, refs: seq<int>, atStart: bool, j: Join, counted: Net)
    requires refs != [] && EndNode(refs, atStart) in inp.stNodes && EndJoined(inp, net, refs, atStart, j)
    requires counted == j.net.(report := j.net.report.(endsConnected := j.net.report.endsConnected + 1))
    requires Kept(inp, j.net) ==> Kept(inp, counted)
    requires Extends(inp, net, j.net) ==> Extends(inp, net, counted)
    requires CreatesAtMost(net, j.net, j.node) ==> CreatesAtMost(net, counted, j.node)
    ensures EndDone(inp, net, refs, atStart, End(counted, Extend(refs, atStart, j.node), false))
  {
    hide Apart, Kept, Extends, SomeNear, JoinedTo, CreatesAtMost;
  }

  lemma StaysOpen(inp: Input, net: Net, open: Net)
    requires open == net.(report := net.report.(endsOpen := net.report.endsOpen + 1))
    ensures Kept(inp, net) ==> Kept(inp, open)
    ensures Extends(inp, net, open)
  {
    hide IsRevision, Course, Placed;
  }

  lemma JoinsNearest(inp: Input, net: Net, p: Point, s: Seg, j: Join)
    requires NearestTo(inp, p, s) && JoinsWell(inp, net, p, s, j)
    ensures Apart(inp) && Kept(inp, net) ==>
              && Kept(inp, j.net) && Extends(inp, net, j.net) && CreatesAtMost(net, j.net, j.node)
              && JoinedTo(inp, j.net.created, j.net.modified, p, j.node) && j.node !in inp.stNodes
  {
    hide Apart, Kept, Extends, CreatesAtMost, JoinedBy, CurrentRefs, NearestTo;
  }

  /** The ends counters are no part of what is kept. */
  lemma CountingKeeps(inp: Input, net: Net, net': Net, counted: Net, node: int)
    requires counted == net'.(report := net'.report.(endsConnected := net'.report.endsConnected + 1))
    ensures Kept(inp, net') ==> Kept(inp, counted)
    ensures Extends(inp, net, net') ==> Extends(inp, net, counted)
    ensures CreatesAtMost(net, net', node) ==> CreatesAtMost(net, counted, node)
  {
    hide IsRevision, Course, Placed;
  }

  /** The street's nodes that the street file knows. */
  function Known(refs: seq<int>, st: map<int, Point>): (k: seq<int>)
    ensures forall i :: 0 <= i < |k| ==> k[i] in st
  {
    if refs == [] then []
    else
      var n := |refs| - 1;
      if refs[n] in st then Known(refs[..n], st) + [refs[n]] else Known(refs[..n], st)
  }

  /** The output street: its known nodes, with at most one road node before and one after. An end has no road
      node exactly when no road is near it; a road node joins its end to the nearest segment of the end. */
  ghost predicate StreetOut(
    inp: Input, created: map<int, Point>, modified: map<int, Way>, w: Way, o: Way, pre: seq<int>, post: seq<int>)
  {
    var known := Known(w.refs, inp.stNodes);
    && known != [] && o == Way(w.id, pre + known + post, w.tags, 1) && |pre| <= 1 && |post| <= 1
    && EndOut(inp, created, modified, inp.stNodes[known[0]], pre)
    && EndOut(inp, created, modified, inp.stNodes[known[|known| - 1]], post)
  }

  ghost predicate EndOut(inp: Input, created: map<int, Point>, modified: map<int, Way>, p: Point, added: seq<int>) {
    && (added == [] <==> !SomeNear(inp, p, CONNECT_M))
    && (added != [] ==> JoinedTo(inp, created, modified, p, added[0]))
  }

  /** What one street creates: its own known nodes, where they are, and the junctions at its ends. */
  ghost predicate StreetCreates(inp: Input, net: Net, w: Way, net': Net, o: Way) {
    var known := Known(w.refs, inp.stNodes);
    && net.jid <= net'.jid
    && (forall n :: n in net'.created <==> n in net.created || n in known || net.jid < n <= net'.jid)
    && (forall n :: n in known ==> n <= net.jid && net'.created[n] == inp.stNodes[n])
    && (forall n :: n in net.created && n !in known ==> net'.created[n] == net.created[n])
    && (forall n :: net.jid < n <= net'.jid ==> n in o.refs)
  }

  /** What one street adds to the network. */
  ghost predicate StreetDone(inp: Input, net: Net, w: Way, net': Net, o: Way) {
    && (forall n :: n in inp.hwNodes ==> n in net'.nodes)
    && net'.report.streets == net.report.streets + 1 && net'.report.alreadyMapped == net.report.alreadyMapped
    && (Apart(inp) && Kept(inp, net) ==>
          && Kept(inp, net') && Extends(inp, net, net') && StreetCreates(inp, net, w, net', o)
          && StreetCounted(inp, net, w, net', o))
  }

  /** The output street, with its ends counted. */
  ghost predicate StreetCounted(inp: Input, net: Net, w: Way, net': Net, o: Way) {
    exists pre, post ::
      && StreetOut(inp, net'.created, net'.modified, w, o, pre, post)
      && net'.report.endsConnected == net.report.endsConnected + |pre| + |post|
      && net'.report.endsOpen == net.report.endsOpen + 2 - |pre| - |post|
  }

  /** The network with the street's own nodes created. */
  ghost predicate StreetBegun(inp: Input, net: Net, refs: seq<int>, start: Net) {
    && start == net.(created := start.created, report := net.report.(streets := net.report.streets + 1))
    && (forall n :: n in start.created <==> n in net.created || n in refs)
    && (forall n :: n in refs ==> n in inp.stNodes && start.created[n] == inp.stNodes[n])
    && (forall n :: n in net.created && n !in refs ==> start.created[n] == net.created[n])
  }

  /** The nodes of a street among the created ones. */
  method Begin(inp: Input, net: Net, refs: seq<int>) returns (start: Net)
    requires forall i :: 0 <= i < |refs| ==> refs[i] in inp.stNodes
    ensures StreetBegun(inp, net, refs, start)
  {
    var created := net.created;
    for i := 0 to |refs|
      invariant forall n :: n in created <==> n in net.created || n in refs[..i]
      invariant forall n :: n in refs[..i] ==> created[n] == inp.stNodes[n]
      invariant forall n :: n in net.created && n !in refs[..i] ==> created[n] == net.created[n]
    {
      assert refs[..i + 1] == refs[..i] + [refs[i]];
      created := created[refs[i] := inp.stNodes[refs[i]]];
    }
    assert refs[..|refs|] == refs;
    return net.(created := created, report := net.report.(streets := net.report.streets + 1));
  }

  method JoinStreet(idx: Index, inp: Input, net: Net, w: Way) returns (r: Option<(Net, Way)>)
    requires idx.Valid() && idx.nodes == inp.hwNodes && idx.ways == inp.hwWays && Cosine(inp.cosine)
    requires Known(w.refs, inp.stNodes) != []
    requires forall n :: n in inp.hwNodes ==> n in net.nodes
    ensures r.Some? ==> StreetDone(inp, net, w, r.value.0, r.value.1)
    ensures r.None? && Apart(inp) && Kept(inp, net) ==>
              exists v :: v in inp.hwWays && Routable(v) && !Clear(inp, v)
  {
    var refs := Known(w.refs, inp.stNodes);
    var start := Begin(inp, net, refs);
    StreetNodesKeep(inp, net, start, refs);
    BegunNodes(inp, net, refs, start);
    hide Apart, Kept, Extends, JoinedTo, SomeNear, Known, Clear, Routable, CreatesAtMost, StreetBegun, StreetDone;
    var first := JoinEnd(idx, inp, start, refs, true);
    if first.None? {
      return None;
    }
    var e1 := first.value;
    FirstEnd(inp, start, refs, e1);
    var last := JoinEnd(idx, inp, e1.net, e1.refs, false);
    if last.None? {
      return None;
    }
    var e2 := last.value;
    BothEnds(inp, net, start, w, e1, e2);
    return Some((e2.net, Way(w.id, e2.refs, w.tags, 1)));
  }

  lemma BegunNodes(inp: Input, net: Net, refs: seq<int>, start: Net)
    requires StreetBegun(inp, net, refs, start)
    ensures start.nodes == net.nodes
  {
  }

  lemma FirstEnd(inp: Input, start: Net, refs: seq<int>, e1: End)
    requires refs != [] && EndNode(refs, true) in inp.stNodes && EndDone(inp, start, refs, true, e1)
    ensures e1.refs != [] && EndNode(e1.refs, false) == EndNode(refs, false)
    ensures forall n :: n in inp.hwNodes ==> n in e1.net.nodes
    ensures Apart(inp) && Kept(inp, start) ==> Kept(inp, e1.net)
  {
    hide Apart, Kept, Extends, JoinedTo, SomeNear, CreatesAtMost;
  }

  /** The street's own nodes among the created ones do not disturb what is kept. */
  lemma StreetNodesKeep(inp: Input, net: Net, start: Net, refs: seq<int>)
    requires StreetBegun(inp, net, refs, start)
    ensures Apart(inp) && Kept(inp, net) ==> Kept(inp, start) && Extends(inp, net, start)
    ensures Apart(inp) && Kept(inp, net) ==> start.jid == net.jid && forall n :: n in refs ==> n <= net.jid
  {
    hide IsRevision, Course, Placed;
  }

  /** The road node of an end. */
  function Added(e: End, atStart: bool): seq<int>
    requires e.refs != []
  {
    if e.open then [] else [EndNode(e.refs, atStart)]
  }

  /** One end of the street, as it is when the street is done. */
  lemma EndIsOut(inp: Input, net: Net, refs: seq<int>, atStart: bool, e: End, after: Net)
    requires Apart(inp) && Kept(inp, net) && refs != [] && EndNode(refs, atStart) in inp.stNodes
    requires EndDone(inp, net, refs, atStart, e) && Extends(inp, e.net, after)
    ensures e.refs != []
    ensures e.refs == if atStart then Added(e, true) + refs else refs + Added(e, false)
    ensures EndOut(inp, after.created, after.modified, inp.stNodes[EndNode(refs, atStart)], Added(e, atStart))
    ensures Extends(inp, net, e.net) && Kept(inp, e.net)
    ensures |e.refs| == |refs| + |Added(e, atStart)|
    ensures e.net.report.endsConnected == net.report.endsConnected + |Added(e, atStart)|
    ensures e.net.report.endsOpen == net.report.endsOpen + 1 - |Added(e, atStart)|
  {
    hide Apart, Kept, Extends, JoinedTo, SomeNear, CreatesAtMost;
    if !e.open {
      JoinedStays(inp, e.net, after, inp.stNodes[EndNode(refs, atStart)], EndNode(e.refs, atStart));
    }
  }

  lemma EndCreates(inp: Input, net: Net, refs: seq<int>, atStart: bool, e: End)
    requires Apart(inp) && Kept(inp, net) && refs != [] && EndNode(refs, atStart) in inp.stNodes
    requires EndDone(inp, net, refs, atStart, e)
    ensures e.refs != [] && CreatesAtMost(net, e.net, EndNode(e.refs, atStart))
    ensures forall n :: n in refs ==> n in e.refs
    ensures !e.open ==> EndNode(e.refs, atStart) in e.refs
  {
    hide Apart, Kept, Extends, JoinedTo, SomeNear;
  }

  lemma SameReports(inp: Input, net: Net, refs: seq<int>, atStart: bool, e: End)
    requires refs != [] && EndNode(refs, atStart) in inp.stNodes && EndDone(inp, net, refs, atStart, e)
    ensures e.net.report.streets == net.report.streets && e.net.report.alreadyMapped == net.report.alreadyMapped
    ensures forall n :: n in inp.hwNodes ==> n in e.net.nodes
  {
    hide Apart, Kept, Extends, JoinedTo, SomeNear, CreatesAtMost;
  }

  /** The street's nodes and the nodes of its two ends. */
  lemma BothCreate(inp: Input, net: Net, start: Net, w: Way, e1: End, e2: End)
    requires e1.refs != [] && e2.refs != []
    requires StreetBegun(inp, net, Known(w.refs, inp.stNodes), start)
    requires forall n :: n in Known(w.refs, inp.stNodes) ==> n <= net.jid
    requires CreatesAtMost(start, e1.net, EndNode(e1.refs, true)) &&
        CreatesAtMost(e1.net, e2.net, EndNode(e2.refs, false))
    requires forall n :: n in e1.refs ==> n in e2.refs
    ensures StreetCreates(inp, net, w, e2.net, Way(w.id, e2.refs, w.tags, 1))
  {
    hide Known;
    assert EndNode(e1.refs, true) in e1.refs && EndNode(e2.refs, false) in e2.refs;
  }

  lemma BothEnds(inp: Input, net: Net, start: Net, w: Way, e1: End, e2: End)
    requires StreetBegun(inp, net, Known(w.refs, inp.stNodes), start)
    requires Known(w.refs, inp.stNodes) != []
    requires EndDone(inp, start, Known(w.refs, inp.stNodes), true, e1)
    requires e1.refs != [] && EndNode(e1.refs, false) == EndNode(Known(w.refs, inp.stNodes), false)
    requires EndDone(inp, e1.net, e1.refs, false, e2)
    ensures StreetDone(inp, net, w, e2.net, Way(w.id, e2.refs, w.tags, 1))
  {
    var known := Known(w.refs, inp.stNodes);
    BegunReport(inp, net, known, start);
    EndsAreStreets(inp, w);
    hide Apart, Kept, Extends, EndDone, Known, StreetBegun, StreetCounted, StreetCreates, EndNode;
    SameReports(inp, start, known, true, e1);
    SameReports(inp, e1.net, e1.refs, false, e2);
    if Apart(inp) && Kept(inp, net) {
      StreetNodesKeep(inp, net, start, known);
      BothKeep(inp, net, start, w, e1, e2);
    }
  }

  /** The two ends one after the other, with the id ranges apart. */
  lemma BothKeep(inp: Input, net: Net, start: Net, w: Way, e1: End, e2: End)
    requires Apart(inp) && Kept(inp, start) && Extends(inp, net, start)
    requires StreetBegun(inp, net, Known(w.refs, inp.stNodes), start)
    requires start.report == net.report.(streets := net.report.streets + 1)
    requires forall n :: n in Known(w.refs, inp.stNodes) ==> n <= net.jid
    requires Known(w.refs, inp.stNodes) != []
    requires EndDone(inp, start, Known(w.refs, inp.stNodes), true, e1)
    requires e1.refs != [] && EndNode(e1.refs, false) == EndNode(Known(w.refs, inp.stNodes), false)
    requires EndDone(inp, e1.net, e1.refs, false, e2)
    ensures var o := Way(w.id, e2.refs, w.tags, 1);
            && Kept(inp, e2.net) && Extends(inp, net, e2.net) && StreetCreates(inp, net, w, e2.net, o)
            && StreetCounted(inp, net, w, e2.net, o)
  {
    var known, o := Known(w.refs, inp.stNodes), Way(w.id, e2.refs, w.tags, 1);
    EndsAreStreets(inp, w);
    hide *;
    SameExtends(inp, e2.net, 0);
    KeptAfterFirst(inp, start, known, e1);
    EndIsOut(inp, e1.net, e1.refs, false, e2, e2.net);
    EndIsOut(inp, start, known, true, e1, e2.net);
    EndCreates(inp, start, known, true, e1);
    EndCreates(inp, e1.net, e1.refs, false, e2);
    BothCreate(inp, net, start, w, e1, e2);
    ExtendsTransitive(inp, net, start, e1.net);
    ExtendsTransitive(inp, net, e1.net, e2.net);
    var pre, post := Added(e1, true), Added(e2, false);
    AddedIsShort(e1, true);
    AddedIsShort(e2, false);
    IsStreetOut(inp, e2.net, w, o, known, pre, post);
    IsCounted(inp, net, w, e2.net, o, pre, post);
  }

  lemma EndsAreStreets(inp: Input, w: Way)
    requires Known(w.refs, inp.stNodes) != []
    ensures forall atStart :: EndNode(Known(w.refs, inp.stNodes), atStart) in inp.stNodes
  {
    hide Known;
  }

  lemma IsCounted(inp: Input, net: Net, w: Way, net': Net, o: Way, pre: seq<int>, post: seq<int>)
    requires StreetOut(inp, net'.created, net'.modified, w, o, pre, post)
    requires net'.report.endsConnected == net.report.endsConnected + |pre| + |post|
    requires net'.report.endsOpen == net.report.endsOpen + 2 - |pre| - |post|
    ensures StreetCounted(inp, net, w, net', o)
  {
    hide StreetOut;
  }

  lemma AddedIsShort(e: End, atStart: bool)
    requires e.refs != []
    ensures |Added(e, atStart)| <= 1
  {
  }

  lemma BegunReport(inp: Input, net: Net, known: seq<int>, start: Net)
    requires StreetBegun(inp, net, known, start)
    ensures start.report == net.report.(streets := net.report.streets + 1)
  {
  }

  lemma KeptAfterFirst(inp: Input, net: Net, refs: seq<int>, e: End)
    requires Apart(inp) && Kept(inp, net) && refs != [] && EndNode(refs, true) in inp.stNodes
    requires EndDone(inp, net, refs, true, e)
    ensures Kept(inp, e.net)
  {
    hide Apart, Kept, Extends, JoinedTo, SomeNear, CreatesAtMost;
  }

  lemma IsStreetOut(inp: Input, net: Net, w: Way, o: Way, known: seq<int>, pre: seq<int>, post: seq<int>)
    requires known == Known(w.refs, inp.stNodes) && known != [] && |pre| <= 1 && |post| <= 1
    requires o == Way(w.id, pre + known + post, w.tags, 1)
    requires EndOut(inp, net.created, net.modified, inp.stNodes[EndNode(known, true)], pre)
    requires EndOut(inp, net.created, net.modified, inp.stNodes[EndNode(known, false)], post)
    ensures StreetOut(inp, net.created, net.modified, w, o, pre, post)
  {
    hide EndOut, Known;
  }
}
