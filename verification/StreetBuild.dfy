/** The whole of build: every driver street that is not on the map yet
    (maps/scripts/driver-streets-to-osc.py, build). */
module StreetBuild {
  import opened Common
  import opened Geometry
  import opened SegmentIndex
  import opened Splice
  import opened Weave
  import opened StreetJoin
  import opened Streets

  // ----- a street's own nodes, by their places -----

  /** Place m of the street is a node the street file knows. */
  predicate OwnAt(refs: seq<int>, st: map<int, Point>, m: nat) {
    m < |refs| && refs[m] in st
  }

  function OwnPlaces(refs: seq<int>, st: map<int, Point>): set<nat> {
    set m: nat | m < |refs| && refs[m] in st
  }

  /** The nodes at all these places, in their order and as often as they occur. */
  ghost predicate OwnNodes(refs: seq<int>, st: map<int, Point>, own: seq<int>, at: seq<nat>) {
    && |at| == |own| && Increasing(at)
    && (forall m :: 0 <= m < |at| ==> OwnAt(refs, st, at[m]) && own[m] == refs[at[m]])
    && (forall m: nat :: OwnAt(refs, st, m) ==> m in at)
  }

  /** Place m is the street's first, or its last, of its own nodes. */
  ghost predicate EndAt(refs: seq<int>, st: map<int, Point>, m: nat, atStart: bool) {
    && OwnAt(refs, st, m)
    && forall i: nat :: OwnAt(refs, st, i) ==> if atStart then m <= i else i <= m
  }

  lemma {:induction false} KnownMeans(refs: seq<int>, st: map<int, Point>) returns (at: seq<nat>)
    ensures OwnNodes(refs, st, Known(refs, st), at)
    ensures |OwnPlaces(refs, st)| == |Known(refs, st)|
  {
    at := [];
    if refs == [] {
      assert OwnPlaces(refs, st) == {};
    } else {
      var n := |refs| - 1;
      var before := KnownMeans(refs[..n], st);
      at := if refs[n] in st then before + [n] else before;
      OwnPlacesStep(refs, st);
      OwnNodesStep(refs, st, Known(refs[..n], st), before);
    }
  }

  lemma OwnPlacesStep(refs: seq<int>, st: map<int, Point>)
    requires refs != []
    ensures var n := |refs| - 1;
            |OwnPlaces(refs, st)| == |OwnPlaces(refs[..n], st)| + One(refs[n] in st)
  {
    var n := |refs| - 1;
    var before, after := OwnPlaces(refs[..n], st), OwnPlaces(refs, st);
    assert after == if refs[n] in st then before + {n} else before;
  }

  lemma OwnNodesStep(refs: seq<int>, st: map<int, Point>, own: seq<int>, at: seq<nat>)
    requires refs != [] && OwnNodes(refs[..|refs| - 1], st, own, at)
    ensures var n := |refs| - 1;
            OwnNodes(refs, st, if refs[n] in st then own + [refs[n]] else own, if refs[n] in st then at + [n] else at)
  {
    var n := |refs| - 1;
    var at' := if refs[n] in st then at + [n] else at;
    forall m: nat | OwnAt(refs, st, m)
      ensures m in at'
    {
      assert m < n ==> OwnAt(refs[..n], st, m);
      assert m == n ==> at'[|at|] == n;
    }
    forall m | 0 <= m < |at|
      ensures OwnAt(refs, st, at[m])
    {
      assert OwnAt(refs[..n], st, at[m]);
    }
  }

  /** The ends are the first and the last of the own nodes. */
  lemma EndsMean(refs: seq<int>, st: map<int, Point>, own: seq<int>, at: seq<nat>, atStart: bool)
    requires OwnNodes(refs, st, own, at) && own != []
    ensures EndAt(refs, st, if atStart then at[0] else at[|at| - 1], atStart)
    ensures forall m: nat :: EndAt(refs, st, m, atStart) ==> refs[m] == EndNode(own, atStart)
  {
    var e := if atStart then at[0] else at[|at| - 1];
    forall i: nat | OwnAt(refs, st, i)
      ensures if atStart then e <= i else i <= e
    {
      assert i in at;
    }
  }

  // ----- the whole build -----

  /** How many of the nodes are within MAPPED_M of a routable segment. */
  ghost function NearCount(inp: Input, nodes: seq<int>): nat
    requires forall i :: 0 <= i < |nodes| ==> nodes[i] in inp.stNodes
  {
    if nodes == [] then 0
    else
      var n := |nodes| - 1;
      NearCount(inp, nodes[..n]) + if SomeNear(inp, inp.stNodes[nodes[n]], MAPPED_M) then 1 else 0
  }

  /** The places of the street's own nodes within MAPPED_M of a routable segment. */
  ghost function NearPlaces(inp: Input, refs: seq<int>): set<nat> {
    set m: nat | m < |refs| && refs[m] in inp.stNodes && SomeNear(inp, inp.stNodes[refs[m]], MAPPED_M)
  }

  lemma {:induction false} NearCountMeans(inp: Input, refs: seq<int>)
    ensures NearCount(inp, Known(refs, inp.stNodes)) == |NearPlaces(inp, refs)|
  {
    hide SomeNear;
    if refs == [] {
      assert NearPlaces(inp, refs) == {};
    } else {
      var n := |refs| - 1;
      NearCountMeans(inp, refs[..n]);
      NearPlacesStep(inp, refs);
      if refs[n] in inp.stNodes {
        assert Known(refs, inp.stNodes)[..|Known(refs[..n], inp.stNodes)|] == Known(refs[..n], inp.stNodes);
      }
    }
  }

  lemma NearPlacesStep(inp: Input, refs: seq<int>)
    requires refs != []
    ensures var n := |refs| - 1;
            |NearPlaces(inp, refs)| == |NearPlaces(inp, refs[..n])|
              + One(refs[n] in inp.stNodes && SomeNear(inp, inp.stNodes[refs[n]], MAPPED_M))
  {
    hide SomeNear;
    var n := |refs| - 1;
    var before, after := NearPlaces(inp, refs[..n]), NearPlaces(inp, refs);
    assert after ==
      if refs[n] in inp.stNodes && SomeNear(inp, inp.stNodes[refs[n]], MAPPED_M) then before + {n} else before;
  }

  /** A street of two known nodes or more, of which at least MAPPED_SHARE are near the map's roads. */
  ghost predicate OnMap(inp: Input, w: Way) {
    && |OwnPlaces(w.refs, inp.stNodes)| >= 2
    && |NearPlaces(inp, w.refs)| as real >= MAPPED_SHARE * |OwnPlaces(w.refs, inp.stNodes)| as real
  }

  ghost predicate IsNew(inp: Input, w: Way) {
    |OwnPlaces(w.refs, inp.stNodes)| >= 2 && !OnMap(inp, w)
  }

  /** The streets that are on the map already. */
  ghost function MappedPlaces(inp: Input, streets: seq<Way>): set<nat> {
    set i: nat | i < |streets| && OnMap(inp, streets[i])
  }

  /** The streets that are put on the map. */
  ghost function NewStreets(inp: Input, streets: seq<Way>): seq<Way> {
    if streets == [] then []
    else
      var n := |streets| - 1;
      if IsNew(inp, streets[n]) then NewStreets(inp, streets[..n]) + [streets[n]]
      else NewStreets(inp, streets[..n])
  }

  /** They are all the new ones, in their order. */
  ghost predicate Selected(inp: Input, streets: seq<Way>, news: seq<Way>, at: seq<nat>) {
    && |at| == |news| && Increasing(at)
    && (forall m :: 0 <= m < |at| ==> at[m] < |streets| && news[m] == streets[at[m]] && IsNew(inp, news[m]))
    && (forall i: nat :: i < |streets| && IsNew(inp, streets[i]) ==> i in at)
  }

  lemma {:induction false} NewStreetsAreSelected(inp: Input, streets: seq<Way>) returns (at: seq<nat>)
    ensures Selected(inp, streets, NewStreets(inp, streets), at)
  {
    hide IsNew;
    at := [];
    if streets != [] {
      var n := |streets| - 1;
      at := NewStreetsAreSelected(inp, streets[..n]);
      assert forall i: nat :: i < n ==> streets[..n][i] == streets[i];
      if IsNew(inp, streets[n]) {
        var before := at;
        at := before + [n];
        assert at[|before|] == n;
        assert forall i: nat :: i in before ==> i in at;
      }
    }
  }

  lemma OneMoreMapped(inp: Input, streets: seq<Way>, w: Way)
    ensures |MappedPlaces(inp, streets + [w])| == |MappedPlaces(inp, streets)| + One(OnMap(inp, w))
  {
    hide OnMap;
    var before, after := MappedPlaces(inp, streets), MappedPlaces(inp, streets + [w]);
    assert after == if OnMap(inp, w) then before + {|streets|} else before;
  }

  /** What the service reads off a street. */
  lemma StreetCounts(inp: Input, w: Way)
    ensures var known := Known(w.refs, inp.stNodes);
            && |known| == |OwnPlaces(w.refs, inp.stNodes)|
            && (OnMap(inp, w) <==>
                  |known| >= 2 && NearCount(inp, known) as real >= MAPPED_SHARE * |known| as real)
  {
    hide OwnPlaces, NearPlaces, Known;
    var _ := KnownMeans(w.refs, inp.stNodes);
    NearCountMeans(inp, w.refs);
  }

  /** The street's first own node, or its last, is within CONNECT_M of a routable segment. */
  ghost predicate EndIsNear(inp: Input, refs: seq<int>, atStart: bool) {
    exists m: nat ::
      EndAt(refs, inp.stNodes, m, atStart) && SomeNear(inp, inp.stNodes[refs[m]], CONNECT_M)
  }

  /** The node put before or behind the street: there is one exactly when its end is near a road, and it joins that
      end to a nearest segment. */
  ghost predicate EndPut(
    inp: Input, created: map<int, Point>, modified: map<int, Way>, refs: seq<int>, atStart: bool, added: seq<int>)
  {
    && |added| <= 1 && (added != [] <==> EndIsNear(inp, refs, atStart))
    && forall m: nat :: added != [] && EndAt(refs, inp.stNodes, m, atStart) ==>
         JoinedTo(inp, created, modified, inp.stNodes[refs[m]], added[0])
  }

  /** The street as it is published: its own nodes, in order, between the nodes that join its ends. */
  ghost predicate StreetPut(inp: Input, created: map<int, Point>, modified: map<int, Way>, w: Way, o: Way) {
    exists pre, own, post, at ::
      && o == Way(w.id, pre + own + post, w.tags, 1) && OwnNodes(w.refs, inp.stNodes, own, at)
      && EndPut(inp, created, modified, w.refs, true, pre) && EndPut(inp, created, modified, w.refs, false, post)
  }

  lemma EndIsPut(
    inp: Input, created: map<int, Point>, modified: map<int, Way>, refs: seq<int>, own: seq<int>, at: seq<nat>,
    atStart: bool, added: seq<int>)
    requires OwnNodes(refs, inp.stNodes, own, at) && own != [] && EndNode(own, atStart) in inp.stNodes
    requires |added| <= 1 && EndOut(inp, created, modified, inp.stNodes[EndNode(own, atStart)], added)
    ensures EndPut(inp, created, modified, refs, atStart, added)
    ensures |added| == One(EndIsNear(inp, refs, atStart))
  {
    hide SomeNear, JoinedTo, Increasing;
    EndsMean(refs, inp.stNodes, own, at, atStart);
  }

  lemma OutIsPut(
    inp: Input, created: map<int, Point>, modified: map<int, Way>, w: Way, o: Way, pre: seq<int>, post: seq<int>)
    requires StreetOut(inp, created, modified, w, o, pre, post)
    ensures StreetPut(inp, created, modified, w, o)
    ensures |pre| + |post| == One(EndIsNear(inp, w.refs, true)) + One(EndIsNear(inp, w.refs, false))
  {
    hide OwnNodes, EndOut, EndPut, Known, EndIsNear, EndAt;
    var own := Known(w.refs, inp.stNodes);
    var at := KnownMeans(w.refs, inp.stNodes);
    EndIsPut(inp, created, modified, w.refs, own, at, true, pre);
    EndIsPut(inp, created, modified, w.refs, own, at, false, post);
    assert o == Way(w.id, pre + own + post, w.tags, 1) && OwnNodes(w.refs, inp.stNodes, own, at);
  }

  /** The new streets of which that end is near a road. */
  ghost function NearEnds(inp: Input, news: seq<Way>, atStart: bool): set<nat> {
    set i: nat | i < |news| && EndIsNear(inp, news[i].refs, atStart)
  }

  lemma OneMoreEnds(inp: Input, news: seq<Way>, w: Way, atStart: bool)
    ensures |NearEnds(inp, news + [w], atStart)|
            == |NearEnds(inp, news, atStart)| + One(EndIsNear(inp, w.refs, atStart))
  {
    hide EndIsNear;
    var before, after := NearEnds(inp, news, atStart), NearEnds(inp, news + [w], atStart);
    assert after == if EndIsNear(inp, w.refs, atStart) then before + {|news|} else before;
  }

  /** The output is the street, joined to the changed map. */
  ghost predicate IsOut(inp: Input, created: map<int, Point>, modified: map<int, Way>, w: Way, o: Way) {
    exists pre, post :: StreetOut(inp, created, modified, w, o, pre, post)
  }

  /** A known node of one of the streets. */
  predicate OnStreets(inp: Input, news: seq<Way>, n: int) {
    exists i :: 0 <= i < |news| && n in news[i].refs && n in inp.stNodes
  }

  /** What is created: the known nodes of the new streets, where they are, and the junctions, each on an output. */
  ghost predicate CreatedIs(inp: Input, news: seq<Way>, created: map<int, Point>, junctions: nat, outs: seq<Way>) {
    && (forall n :: n in created <==> OnStreets(inp, news, n) || JUNCTION_START < n <= JUNCTION_START + junctions)
    && (forall n :: OnStreets(inp, news, n) ==> n in inp.stNodes && created[n] == inp.stNodes[n])
    && (forall n :: JUNCTION_START < n <= JUNCTION_START + junctions ==> OnOutputs(outs, n))
  }

  predicate OnOutputs(outs: seq<Way>, n: int) {
    exists i :: 0 <= i < |outs| && n in outs[i].refs
  }

  ghost predicate BuildDone(inp: Input, news: seq<Way>, net: Net, outs: seq<Way>) {
    && |news| == |outs| == net.report.streets
    && (forall i :: 0 <= i < |outs| ==> IsOut(inp, net.created, net.modified, news[i], outs[i]))
    && CreatedIs(inp, news, net.created, net.report.junctions, outs)
    && net.report.endsConnected + net.report.endsOpen == 2 * net.report.streets
    && net.report.endsConnected == |NearEnds(inp, news, true)| + |NearEnds(inp, news, false)|
  }

  method IsMapped(idx: Index, inp: Input, known: seq<int>) returns (mapped: bool)
    requires idx.Valid() && idx.nodes == inp.hwNodes && idx.ways == inp.hwWays && Cosine(inp.cosine)
    requires forall i :: 0 <= i < |known| ==> known[i] in inp.stNodes
    ensures mapped <==> NearCount(inp, known) as real >= MAPPED_SHARE * |known| as real
  {
    hide SegDist, Project, IsSegment;
    var near := 0;
    for i := 0 to |known|
      invariant near == NearCount(inp, known[..i])
    {
      assert known[..i + 1][..i] == known[..i];
      var hit := idx.Nearest(inp.cosine, inp.stNodes[known[i]], MAPPED_M);
      assert hit.Some? <==> SomeNear(inp, inp.stNodes[known[i]], MAPPED_M);
      if hit.Some? {
        near := near + 1;
      }
    }
    assert known[..|known|] == known;
    return near as real >= MAPPED_SHARE * |known| as real;
  }

  /** What a build publishes for its new streets. Every changed road is its next version with junctions added and
      nothing else, and every junction is on one road, once; every clear road keeps its course; every output street
      is a new street with each end joined to the nearest segment exactly when one is near, by a node that is on the
      changed road, its own nodes between them in their order; what is created is the nodes of the new streets and
      the junctions; and the ends counted are those near a road. */
  ghost predicate Built(
    inp: Input, news: seq<Way>, created: map<int, Point>, outs: seq<Way>, modified: map<int, Way>, report: Report)
  {
    && (forall id :: id in modified ==> IsRevision(inp.hwWays, id, modified[id]))
    && Placed(modified, JUNCTION_START + report.junctions)
    && (forall road :: road in inp.hwWays && Clear(inp, road) && road.refs != [] ==>
          Course(inp.hwNodes + created, road, CurrentRefs(modified, road)))
    && |outs| == |news| == report.streets
    && (forall i :: 0 <= i < |outs| ==> StreetPut(inp, created, modified, news[i], outs[i]))
    && CreatedIs(inp, news, created, report.junctions, outs)
    && report.endsConnected + report.endsOpen == 2 * report.streets
    && report.endsConnected == |NearEnds(inp, news, true)| + |NearEnds(inp, news, false)|
  }

  /** The created nodes, the output streets, the changed roads and the report: with the id ranges apart all that is
      published is as it should be, and there is no failure when all routable roads are clear. */
  method Build(hwNodes: map<int, Point>, hwWays: seq<Way>, stNodes: map<int, Point>, streets: seq<Way>,
               cosine: real -> real)
    returns (r: Option<(map<int, Point>, seq<Way>, map<int, Way>, Report)>)
    requires Cosine(cosine)
    ensures var inp := Input(hwNodes, hwWays, stNodes, cosine);
            r.Some? && Apart(inp) ==>
              var (created, outs, modified, report) := r.value;
              exists news, at ::
                Selected(inp, streets, news, at) && Built(inp, news, created, outs, modified, report)
    ensures var inp := Input(hwNodes, hwWays, stNodes, cosine);
            r.Some? ==> r.value.3.alreadyMapped == |MappedPlaces(inp, streets)|
    ensures (Apart(Input(hwNodes, hwWays, stNodes, cosine))
             && forall w :: w in hwWays && Routable(w) ==> Clear(Input(hwNodes, hwWays, stNodes, cosine), w)) ==>
                 r.Some?
  {
    var inp := Input(hwNodes, hwWays, stNodes, cosine);
    var idx := new Index(hwNodes, hwWays);
    var net := Net(map[], hwNodes, map[], Report(0, 0, 0, 0, 0), JUNCTION_START);
    var outs := [];
    Start(inp, net);
    NoneMapped(inp);
    hide Apart, Kept, Extends, Known, Clear, Routable, OnMap, BuildDone, Built, StreetDone, MappedPlaces, OwnPlaces,
      Selected;
    for i := 0 to |streets|
      invariant idx.Valid()
      invariant forall n :: n in hwNodes ==> n in net.nodes
      invariant net.report.alreadyMapped == |MappedPlaces(inp, streets[..i])|
      invariant Apart(inp) ==> Kept(inp, net) && BuildDone(inp, NewStreets(inp, streets[..i]), net, outs)
    {
      var w := streets[i];
      assert streets[..i + 1][..i] == streets[..i] && streets[..i + 1] == streets[..i] + [w];
      OneMoreMapped(inp, streets[..i], w);
      StreetCounts(inp, w);
      var known := Known(w.refs, stNodes);
      if |known| < 2 {
        continue;
      }
      var mapped := IsMapped(idx, inp, known);
      MappedKeeps(inp, NewStreets(inp, streets[..i]), net, outs);
      if mapped {
        net := net.(report := net.report.(alreadyMapped := net.report.alreadyMapped + 1));
        continue;
      }
      var joined := JoinStreet(idx, inp, net, w);
      if joined.None? {
        return None;
      }
      StreetReport(inp, net, w, joined.value.0, joined.value.1);
      if Apart(inp) {
        OneMoreStreet(inp, NewStreets(inp, streets[..i]), net, outs, w, joined.value.0, joined.value.1);
      }
      net, outs := joined.value.0, outs + [joined.value.1];
    }
    assert streets[..|streets|] == streets;
    if Apart(inp) {
      var at := NewStreetsAreSelected(inp, streets);
      Finish(inp, NewStreets(inp, streets), net, outs);
    }
    return Some((net.created, outs, net.modified, net.report));
  }

  lemma Start(inp: Input, net: Net)
    requires net == Net(map[], inp.hwNodes, map[], Report(0, 0, 0, 0, 0), JUNCTION_START)
    ensures Apart(inp) ==> Kept(inp, net) && BuildDone(inp, [], net, [])
  {
    assert NearEnds(inp, [], true) == {} && NearEnds(inp, [], false) == {};
    hide Clear;
    forall road | road in ClearRoads(inp)
      ensures Course(net.nodes, road, CurrentRefs(net.modified, road))
    {
      PlainCourse(net.nodes, road);
    }
  }

  /** A road without junctions keeps its course. */
  lemma PlainCourse(nodes: map<int, Point>, road: Way)
    requires road.refs != []
    ensures Course(nodes, road, road.refs)
  {
    var gaps: seq<seq<int>> := seq(|road.refs| - 1, i => []);
    PlainWoven(road.refs, gaps);
    assert WellWoven(nodes, road.refs, gaps, road.refs);
  }

  lemma {:induction false} PlainWoven(orig: seq<int>, gaps: seq<seq<int>>)
    requires |orig| == |gaps| + 1 && forall i :: 0 <= i < |gaps| ==> gaps[i] == []
    ensures Woven(orig, gaps) == orig
  {
    if gaps != [] {
      PlainWoven(orig[..|gaps|], gaps[..|gaps| - 1]);
    }
  }

  /** A street that is not new leaves what is built alone. */
  lemma MappedKeeps(inp: Input, news: seq<Way>, net: Net, outs: seq<Way>)
    ensures Kept(inp, net) ==>
              Kept(inp, net.(report := net.report.(alreadyMapped := net.report.alreadyMapped + 1)))
    ensures BuildDone(inp, news, net, outs) ==>
              BuildDone(inp, news, net.(report := net.report.(alreadyMapped := net.report.alreadyMapped + 1)), outs)
  {
    hide IsRevision, Course, IsOut, CreatedIs, Placed;
  }

  lemma NoneMapped(inp: Input)
    ensures MappedPlaces(inp, []) == {}
  {
  }

  lemma StreetReport(inp: Input, net: Net, w: Way, net': Net, o: Way)
    requires StreetDone(inp, net, w, net', o)
    ensures net'.report.alreadyMapped == net.report.alreadyMapped
    ensures forall n :: n in inp.hwNodes ==> n in net'.nodes
  {
    hide Apart, Kept, Extends, StreetCreates, StreetCounted;
  }

  lemma EndStays(inp: Input, before: Net, after: Net, p: Point, added: seq<int>)
    requires Extends(inp, before, after) && EndOut(inp, before.created, before.modified, p, added)
    ensures EndOut(inp, after.created, after.modified, p, added)
  {
    hide Extends, JoinedTo, SomeNear;
    if added != [] {
      JoinedStays(inp, before, after, p, added[0]);
    }
  }

  lemma OutStays(inp: Input, before: Net, after: Net, w: Way, o: Way)
    requires Extends(inp, before, after) && IsOut(inp, before.created, before.modified, w, o)
    ensures IsOut(inp, after.created, after.modified, w, o)
  {
    hide Extends, EndOut, Known;
    var pre, post :| StreetOut(inp, before.created, before.modified, w, o, pre, post);
    var known := Known(w.refs, inp.stNodes);
    EndStays(inp, before, after, inp.stNodes[known[0]], pre);
    EndStays(inp, before, after, inp.stNodes[known[|known| - 1]], post);
    assert StreetOut(inp, after.created, after.modified, w, o, pre, post);
  }

  lemma {:induction false} KnownHas(refs: seq<int>, st: map<int, Point>, n: int)
    ensures n in Known(refs, st) <==> n in refs && n in st
  {
    if refs != [] {
      KnownHas(refs[..|refs| - 1], st, n);
    }
  }

  lemma OneMoreNew(inp: Input, news: seq<Way>, w: Way, n: int)
    ensures OnStreets(inp, news + [w], n) <==> OnStreets(inp, news, n) || n in Known(w.refs, inp.stNodes)
  {
    hide Known;
    KnownHas(w.refs, inp.stNodes, n);
    var more := news + [w];
    assert more[|news|] == w && forall i :: 0 <= i < |news| ==> more[i] == news[i];
  }

  lemma OneMoreOut(outs: seq<Way>, o: Way, n: int)
    requires OnOutputs(outs, n) || n in o.refs
    ensures OnOutputs(outs + [o], n)
  {
    if i :| 0 <= i < |outs| && n in outs[i].refs {
      assert (outs + [o])[i] == outs[i];
    } else {
      assert (outs + [o])[|outs|] == o;
    }
  }

  lemma JunctionIds(inp: Input, net: Net)
    requires Kept(inp, net)
    ensures net.jid == JUNCTION_START + net.report.junctions
  {
    hide Courses, Recorded, IsRevision, Placed;
  }

  lemma KnownAreStreets(inp: Input, w: Way, n: int)
    requires n in Known(w.refs, inp.stNodes)
    ensures n in inp.stNodes
  {
    hide Known;
  }

  lemma CreatedMore(inp: Input, news: seq<Way>, net: Net, outs: seq<Way>, w: Way, net': Net, o: Way)
    requires net.jid == JUNCTION_START + net.report.junctions && net'.jid == JUNCTION_START + net'.report.junctions
    requires CreatedIs(inp, news, net.created, net.report.junctions, outs)
    requires StreetCreates(inp, net, w, net', o)
    ensures CreatedIs(inp, news + [w], net'.created, net'.report.junctions, outs + [o])
  {
    hide Known, OnStreets, OnOutputs;
    forall n
      ensures OnStreets(inp, news + [w], n) <==> OnStreets(inp, news, n) || n in Known(w.refs, inp.stNodes)
    {
      OneMoreNew(inp, news, w, n);
    }
    forall n | n in Known(w.refs, inp.stNodes)
      ensures n in inp.stNodes
    {
      KnownAreStreets(inp, w, n);
    }
    forall n | JUNCTION_START < n <= net'.jid
      ensures OnOutputs(outs + [o], n)
    {
      assert n <= net.jid ==> OnOutputs(outs, n);
      OneMoreOut(outs, o, n);
    }
  }

  lemma OneMoreStreet(inp: Input, news: seq<Way>, net: Net, outs: seq<Way>, w: Way, net': Net, o: Way)
    requires Apart(inp) && Kept(inp, net) && BuildDone(inp, news, net, outs)
    requires StreetDone(inp, net, w, net', o)
    ensures Kept(inp, net') && BuildDone(inp, news + [w], net', outs + [o])
  {
    hide Apart, Kept, Extends, StreetCreates, CreatedIs, StreetOut, IsOut, NearEnds, StreetPut, EndIsNear;
    forall i | 0 <= i < |outs|
      ensures IsOut(inp, net'.created, net'.modified, news[i], outs[i])
    {
      OutStays(inp, net, net', news[i], outs[i]);
    }
    JunctionIds(inp, net);
    JunctionIds(inp, net');
    CreatedMore(inp, news, net, outs, w, net', o);
    var pre, post :| StreetOut(inp, net'.created, net'.modified, w, o, pre, post)
                     && net'.report.endsConnected == net.report.endsConnected + |pre| + |post|
                     && net'.report.endsOpen == net.report.endsOpen + 2 - |pre| - |post|;
    OutIsPut(inp, net'.created, net'.modified, w, o, pre, post);
    OneMoreEnds(inp, news, w, true);
    OneMoreEnds(inp, news, w, false);
    OutIs(inp, net', w, o, pre, post);
    assert (news + [w])[..|news|] == news && (outs + [o])[..|outs|] == outs;
  }

  lemma OutIs(inp: Input, net: Net, w: Way, o: Way, pre: seq<int>, post: seq<int>)
    requires StreetOut(inp, net.created, net.modified, w, o, pre, post)
    ensures IsOut(inp, net.created, net.modified, w, o)
  {
    hide StreetOut;
  }

  lemma IsOutIsPut(inp: Input, net: Net, w: Way, o: Way)
    requires IsOut(inp, net.created, net.modified, w, o)
    ensures StreetPut(inp, net.created, net.modified, w, o)
  {
    hide StreetOut, StreetPut;
    var pre, post :| StreetOut(inp, net.created, net.modified, w, o, pre, post);
    OutIsPut(inp, net.created, net.modified, w, o, pre, post);
  }

  /** The courses are courses on the map with the created nodes. */
  lemma Finish(inp: Input, news: seq<Way>, net: Net, outs: seq<Way>)
    requires Apart(inp) && Kept(inp, net) && BuildDone(inp, news, net, outs)
    ensures Built(inp, news, net.created, outs, net.modified, net.report)
  {
    hide IsRevision, Course, IsOut, StreetPut, Clear, CreatedIs, Placed, NearEnds;
    forall i | 0 <= i < |outs|
      ensures StreetPut(inp, net.created, net.modified, news[i], outs[i])
    {
      IsOutIsPut(inp, net, news[i], outs[i]);
    }
    forall road | road in ClearRoads(inp)
      ensures Course(inp.hwNodes + net.created, road, CurrentRefs(net.modified, road))
    {
      CourseStays(net.nodes, inp.hwNodes + net.created, road, CurrentRefs(net.modified, road));
    }
  }
}
