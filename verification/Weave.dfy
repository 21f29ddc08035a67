/** A road with junctions woven between its own nodes
    (maps/scripts/driver-streets-to-osc.py, build and insert_on_segment). */
module Weave {
  import opened Common
  import opened Geometry
  import opened Splice

  /** Junction ids are above this one. */
  const JUNCTION_START: int := 27_000_000_000

  /** The refs without the junctions. */
  function Originals(refs: seq<int>): seq<int> {
    if refs == [] then []
    else if refs[0] <= JUNCTION_START then [refs[0]] + Originals(refs[1..])
    else Originals(refs[1..])
  }

  lemma {:induction false} OriginalsOfAll(refs: seq<int>)
    requires forall i :: 0 <= i < |refs| ==> refs[i] <= JUNCTION_START
    ensures Originals(refs) == refs
  {
    if refs != [] {
      OriginalsOfAll(refs[1..]);
    }
  }

  lemma {:induction false} OriginalsConcat(s: seq<int>, t: seq<int>)
    ensures Originals(s + t) == Originals(s) + Originals(t)
  {
    if s == [] {
      assert s + t == t;
    } else {
      assert (s + t)[1..] == s[1..] + t;
      OriginalsConcat(s[1..], t);
    }
  }

  /** A junction disappears without a trace. */
  lemma OriginalsOfInsert(refs: seq<int>, k: nat, x: int)
    requires k <= |refs| && x > JUNCTION_START
    ensures Originals(InsertAt(refs, k, x)) == Originals(refs)
  {
    var u, v := refs[..k], refs[k..];
    assert refs == u + v;
    assert InsertAt(refs, k, x) == (u + [x]) + v;
    assert Originals([x]) == [] by { assert [x][1..] == []; }
    hide Originals;
    OriginalsConcat(u + [x], v);
    OriginalsConcat(u, [x]);
    OriginalsConcat(u, v);
  }

  lemma SliceOfPrefix(refs: seq<int>, first: seq<int>, gap: seq<int>, last: int)
    requires first + gap + [last] <= refs
    ensures refs[|first|..|first| + |gap|] == gap && refs[|first| + |gap|] == last
  {
    var whole := first + gap + [last];
    assert refs[..|whole|] == whole;
    assert whole[|first|..|first| + |gap|] == gap;
    assert refs[|first|..|first| + |gap|] == refs[..|whole|][|first|..|first| + |gap|];
  }

  /** The road's nodes with a run of junctions after each but the last. */
  function Woven(orig: seq<int>, gaps: seq<seq<int>>): (refs: seq<int>)
    requires |orig| == |gaps| + 1
    ensures refs != [] && refs[|refs| - 1] == orig[|orig| - 1]
  {
    if gaps == [] then orig
    else
      var n := |gaps| - 1;
      Woven(orig[..n + 1], gaps[..n]) + gaps[n] + [orig[n + 1]]
  }

  /** The position of node i of the road among its refs. */
  function NodeAt(orig: seq<int>, gaps: seq<seq<int>>, i: nat): (p: nat)
    requires |orig| == |gaps| + 1 && i < |orig|
  {
    |Woven(orig[..i + 1], gaps[..i])| - 1
  }

  /** The first nodes of the road are the first part of its refs. */
  lemma {:induction false} WovenPrefix(orig: seq<int>, gaps: seq<seq<int>>, i: nat)
    requires |orig| == |gaps| + 1 && i < |orig|
    ensures Woven(orig[..i + 1], gaps[..i]) <= Woven(orig, gaps)
    ensures NodeAt(orig, gaps, i) < |Woven(orig, gaps)| && Woven(orig, gaps)[NodeAt(orig, gaps, i)] == orig[i]
  {
    var n := |gaps| - 1;
    if i == |gaps| {
      assert orig[..i + 1] == orig && gaps[..i] == gaps;
    } else {
      WovenPrefix(orig[..n + 1], gaps[..n], i);
      assert orig[..n + 1][..i + 1] == orig[..i + 1] && gaps[..n][..i] == gaps[..i];
    }
  }

  /** One more node, one more run. */
  lemma WovenStep(orig: seq<int>, gaps: seq<seq<int>>, i: nat)
    requires |orig| == |gaps| + 1 && i < |gaps|
    ensures Woven(orig[..i + 2], gaps[..i + 1]) == Woven(orig[..i + 1], gaps[..i]) + gaps[i] + [orig[i + 1]]
  {
    assert orig[..i + 2][..i + 1] == orig[..i + 1] && gaps[..i + 1][..i] == gaps[..i];
  }

  /** Between two neighbouring nodes of the road stands the run of junctions, and nothing else. */
  lemma WovenGap(orig: seq<int>, gaps: seq<seq<int>>, i: nat)
    requires |orig| == |gaps| + 1 && i < |gaps|
    ensures var refs, p := Woven(orig, gaps), NodeAt(orig, gaps, i);
            && p + |gaps[i]| + 1 == NodeAt(orig, gaps, i + 1) < |refs|
            && refs[p] == orig[i] && refs[p + |gaps[i]| + 1] == orig[i + 1]
            && refs[p + 1..p + 1 + |gaps[i]|] == gaps[i]
  {
    WovenPrefix(orig, gaps, i);
    WovenPrefix(orig, gaps, i + 1);
    WovenStep(orig, gaps, i);
    hide Woven;
    SliceOfPrefix(Woven(orig, gaps), Woven(orig[..i + 1], gaps[..i]), gaps[i], orig[i + 1]);
  }

  /** Every ref before node i of the road is a junction of an earlier run or an earlier node. */
  lemma {:induction false} WovenMembers(orig: seq<int>, gaps: seq<seq<int>>, m: nat)
    requires |orig| == |gaps| + 1 && m < |Woven(orig, gaps)| - 1
    ensures var x := Woven(orig, gaps)[m];
            x in orig[..|orig| - 1] || exists i :: 0 <= i < |gaps| && x in gaps[i]
  {
    var n := |gaps| - 1;
    if gaps != [] {
      var first := Woven(orig[..n + 1], gaps[..n]);
      var x := Woven(orig, gaps)[m];
      if m < |first| - 1 {
        WovenMembers(orig[..n + 1], gaps[..n], m);
        assert orig[..n + 1][..n] == orig[..n];
        if x !in orig[..n] {
          var i :| 0 <= i < n && x in gaps[..n][i];
          assert x in gaps[i];
        }
      } else if m == |first| - 1 {
        assert x == orig[n];
      } else {
        assert x == gaps[n][m - |first|];
      }
    }
  }

  lemma WovenLast(orig: seq<int>, gaps: seq<seq<int>>)
    requires |orig| == |gaps| + 1 && gaps != []
    ensures var n := |gaps| - 1;
            Woven(orig, gaps) == Woven(orig[..n + 1], gaps[..n]) + (gaps[n] + [orig[n + 1]])
  {
  }

  lemma WovenInsertLast(orig: seq<int>, gaps: seq<seq<int>>, m: nat, x: int)
    requires |orig| == |gaps| + 1 && gaps != [] && m <= |gaps[|gaps| - 1]|
    ensures var n := |gaps| - 1;
            Woven(orig, gaps[n := InsertAt(gaps[n], m, x)]) ==
                InsertAt(Woven(orig, gaps), NodeAt(orig, gaps, n) + 1 + m, x)
  {
    var n := |gaps| - 1;
    var gaps' := gaps[n := InsertAt(gaps[n], m, x)];
    var first, end := Woven(orig[..n + 1], gaps[..n]), [orig[n + 1]];
    WovenLast(orig, gaps);
    WovenLast(orig, gaps');
    assert gaps'[..n] == gaps[..n];
    hide Woven, InsertAt;
  }

  /** Putting a junction into one run puts it into the refs at the same place. */
  lemma {:induction false} WovenInsert(orig: seq<int>, gaps: seq<seq<int>>, i: nat, m: nat, x: int)
    requires |orig| == |gaps| + 1 && i < |gaps| && m <= |gaps[i]|
    ensures NodeAt(orig, gaps, i) + 1 + m <= |Woven(orig, gaps)|
    ensures Woven(orig, gaps[i := InsertAt(gaps[i], m, x)]) ==
              InsertAt(Woven(orig, gaps), NodeAt(orig, gaps, i) + 1 + m, x)
  {
    hide Woven, InsertAt;
    WovenGap(orig, gaps, i);
    var n := |gaps| - 1;
    var gap := InsertAt(gaps[i], m, x);
    if i == n {
      WovenInsertLast(orig, gaps, m, x);
    } else {
      var gaps' := gaps[i := gap];
      WovenLast(orig, gaps);
      WovenLast(orig, gaps');
      assert gaps'[..n] == gaps[..n][i := gap];
      assert orig[..n + 1][..i + 1] == orig[..i + 1] && gaps[..n][..i] == gaps[..i];
      WovenInsert(orig[..n + 1], gaps[..n], i, m, x);
    }
  }

  // ----- junctions in order -----

  /** None of the road's nodes is a junction. */
  predicate NoJunctions(orig: seq<int>) {
    forall i :: 0 <= i < |orig| ==> orig[i] <= JUNCTION_START
  }

  /** The segment after node i is the first the road comes to with either of its two nodes. */
  predicate ClearAt(orig: seq<int>, i: nat) {
    i + 1 < |orig| && orig[i] != orig[i + 1] && forall j :: 0 <= j < i ==> orig[j] != orig[i] && orig[j] != orig[i + 1]
  }

  /** The point lies on the segment. */
  ghost predicate OnLine(a: Point, b: Point, p: Point) {
    exists t: real :: 0.0 <= t <= 1.0 && p == Along(a, b, t)
  }

  /** A run of junctions that lie on the segment ab, in order of distance from a. */
  ghost predicate Orderly(nodes: map<int, Point>, a: int, b: int, gap: seq<int>) {
    gap != [] ==>
      && a in nodes && b in nodes
      && (forall m :: 0 <= m < |gap| ==>
            gap[m] > JUNCTION_START && gap[m] in nodes && OnLine(nodes[a], nodes[b], nodes[gap[m]]))
      && (forall m, n :: 0 <= m < n < |gap| ==>
            DegDist(nodes[gap[m]], nodes[a]) <= DegDist(nodes[gap[n]], nodes[a]))
  }

  /** The refs are the road's nodes with an orderly run of junctions on each segment. */
  ghost predicate WellWoven(nodes: map<int, Point>, orig: seq<int>, gaps: seq<seq<int>>, refs: seq<int>) {
    && |orig| == |gaps| + 1 && refs == Woven(orig, gaps)
    && forall i :: 0 <= i < |gaps| ==> Orderly(nodes, orig[i], orig[i + 1], gaps[i])
  }

  /** The runs hold junctions only. */
  ghost predicate JunctionsOnly(gaps: seq<seq<int>>) {
    forall i, m :: 0 <= i < |gaps| && 0 <= m < |gaps[i]| ==> gaps[i][m] > JUNCTION_START
  }

  lemma WellWovenJunctions(nodes: map<int, Point>, orig: seq<int>, gaps: seq<seq<int>>, refs: seq<int>)
    requires WellWoven(nodes, orig, gaps, refs)
    ensures JunctionsOnly(gaps)
  {
    hide OnLine, DegDist, Woven;
    forall i, m | 0 <= i < |gaps| && 0 <= m < |gaps[i]|
      ensures gaps[i][m] > JUNCTION_START
    {
      assert Orderly(nodes, orig[i], orig[i + 1], gaps[i]);
    }
  }

  /** Before a clear segment stand other nodes and junctions. */
  lemma BeforeNode(orig: seq<int>, gaps: seq<seq<int>>, i: nat, m: nat)
    requires NoJunctions(orig) && |orig| == |gaps| + 1 && JunctionsOnly(gaps)
    requires ClearAt(orig, i) && m < NodeAt(orig, gaps, i)
    ensures m < |Woven(orig, gaps)|
    ensures Woven(orig, gaps)[m] != orig[i] && Woven(orig, gaps)[m] != orig[i + 1]
  {
    var first := Woven(orig[..i + 1], gaps[..i]);
    WovenPrefix(orig, gaps, i);
    assert first <= Woven(orig, gaps);
    WovenMembers(orig[..i + 1], gaps[..i], m);
    var x := first[m];
    hide Woven;
    assert orig[..i + 1][..i] == orig[..i];
    if x in orig[..i] {
      var j :| 0 <= j < i && orig[j] == x;
    } else {
      var j :| 0 <= j < i && x in gaps[..i][j];
      var n :| 0 <= n < |gaps[j]| && gaps[j][n] == x;
    }
  }

  /** Of the two nodes of a clear segment, a is met first and b next. */
  lemma MetInWoven(orig: seq<int>, gaps: seq<seq<int>>, i: nat)
    requires NoJunctions(orig) && |orig| == |gaps| + 1 && JunctionsOnly(gaps) && ClearAt(orig, i)
    ensures var p := NodeAt(orig, gaps, i);
            Met(Woven(orig, gaps), orig[i], orig[i + 1], 0) == Some((p, p + |gaps[i]| + 1))
  {
    hide Woven, NodeAt, Met;
    var refs, p := Woven(orig, gaps), NodeAt(orig, gaps, i);
    var q := p + |gaps[i]| + 1;
    WovenGap(orig, gaps, i);
    forall m | 0 <= m < p
      ensures refs[m] != orig[i] && refs[m] != orig[i + 1]
    {
      BeforeNode(orig, gaps, i, m);
    }
    forall m | p < m < q
      ensures refs[m] != orig[i + 1]
    {
      assert refs[m] == refs[p + 1..p + 1 + |gaps[i]|][m - p - 1];
    }
    MetIs(refs, orig[i], orig[i + 1], 0, p, q);
  }

  /** The slot of a junction among the refs is its slot in the run of its segment. */
  lemma {:induction false} SlotInRun(
    refs: seq<int>, nodes: map<int, Point>, start: Point, dn: real, p: nat, gap: seq<int>, m: nat)
    requires p + |gap| <= |refs| && refs[p..p + |gap|] == gap && m <= |gap|
    requires forall n :: 0 <= n < |gap| ==> gap[n] in nodes
    ensures var s := Slot(gap, nodes, start, dn, m, |gap|);
            s.Some? && Slot(refs, nodes, start, dn, p + m, p + |gap|) == Some(p + s.value)
    decreases |gap| - m
  {
    hide DegDist;
    if m < |gap| {
      assert refs[p + m] == refs[p..p + |gap|][m];
      SlotInRun(refs, nodes, start, dn, p, gap, m + 1);
    }
  }

  /** The run with one more junction at its slot. */
  function GapWith(nodes: map<int, Point>, start: Point, gap: seq<int>, x: int, pos: Point): seq<int> {
    var s := Slot(gap, nodes, start, DegDist(pos, start), 0, |gap|);
    if s.Some? then InsertAt(gap, s.value, x) else gap
  }

  lemma RunIsKnown(nodes: map<int, Point>, orig: seq<int>, gaps: seq<seq<int>>, refs: seq<int>, i: nat)
    requires WellWoven(nodes, orig, gaps, refs) && i < |gaps|
    ensures forall m :: 0 <= m < |gaps[i]| ==> gaps[i][m] in nodes
  {
    hide Woven, OnLine, DegDist;
    assert Orderly(nodes, orig[i], orig[i + 1], gaps[i]);
  }

  /** insert_on_segment looks in the run of the segment only. */
  lemma SpliceInRun(nodes: map<int, Point>, orig: seq<int>, gaps: seq<seq<int>>, i: nat, x: int, pos: Point)
    returns (k: nat)
    requires NoJunctions(orig) && |orig| == |gaps| + 1 && JunctionsOnly(gaps) && ClearAt(orig, i) && i < |gaps|
    requires orig[i] in nodes && forall m :: 0 <= m < |gaps[i]| ==> gaps[i][m] in nodes
    ensures k <= |gaps[i]|
    ensures Slot(gaps[i], nodes, nodes[orig[i]], DegDist(pos, nodes[orig[i]]), 0, |gaps[i]|) == Some(k)
    ensures NodeAt(orig, gaps, i) + 1 + k <= |Woven(orig, gaps)|
    ensures Spliced(Woven(orig, gaps), orig[i], orig[i + 1], x, nodes, pos) ==
              Some(InsertAt(Woven(orig, gaps), NodeAt(orig, gaps, i) + 1 + k, x))
  {
    hide *;
    var refs, p, gap := Woven(orig, gaps), NodeAt(orig, gaps, i), gaps[i];
    var dn := DegDist(pos, nodes[orig[i]]);
    WovenGap(orig, gaps, i);
    MetInWoven(orig, gaps, i);
    SlotInRun(refs, nodes, nodes[orig[i]], dn, p + 1, gap, 0);
    k := Slot(gap, nodes, nodes[orig[i]], dn, 0, |gap|).value;
    SplicedAt(refs, orig[i], orig[i + 1], x, nodes, pos, p, p + |gap| + 1, p + 1 + k);
  }

  /** insert_on_segment puts a junction on a clear segment into the run of its segment. */
  lemma SpliceIsWoven(
    nodes: map<int, Point>, orig: seq<int>, gaps: seq<seq<int>>, i: nat, x: int, pos: Point)
    requires NoJunctions(orig) && |orig| == |gaps| + 1 && WellWoven(nodes, orig, gaps, Woven(orig, gaps))
    requires ClearAt(orig, i) && i < |gaps|
    requires orig[i] in nodes && orig[i + 1] in nodes
    ensures Spliced(Woven(orig, gaps), orig[i], orig[i + 1], x, nodes, pos) ==
              Some(Woven(orig, gaps[i := GapWith(nodes, nodes[orig[i]], gaps[i], x, pos)]))
  {
    WellWovenJunctions(nodes, orig, gaps, Woven(orig, gaps));
    RunIsKnown(nodes, orig, gaps, Woven(orig, gaps), i);
    hide Woven, NodeAt, Met, Slot, DegDist, OnLine, InsertAt, NoJunctions, ClearAt, JunctionsOnly, WellWoven;
    hide Spliced, Orderly;
    var k := SpliceInRun(nodes, orig, gaps, i, x, pos);
    WovenInsert(orig, gaps, i, k, x);
  }

  /** The run stays orderly. */
  lemma GapStaysOrderly(nodes: map<int, Point>, a: int, b: int, gap: seq<int>, x: int, t: real)
    requires Orderly(nodes, a, b, gap) && a in nodes && b in nodes && x in nodes && x > JUNCTION_START
    requires 0.0 <= t <= 1.0 && nodes[x] == Along(nodes[a], nodes[b], t)
    ensures Orderly(nodes, a, b, GapWith(nodes, nodes[a], gap, x, nodes[x]))
  {
    var start := nodes[a];
    var dn := DegDist(nodes[x], start);
    hide DegDist, Along;
    var s := Slot(gap, nodes, start, dn, 0, |gap|);
    SlotInRun(gap, nodes, start, dn, 0, gap, 0);
    var gap' := InsertAt(gap, s.value, x);
    assert OnLine(nodes[a], nodes[b], nodes[x]);
    hide Slot, OnLine;
    forall m | 0 <= m < |gap'|
      ensures gap'[m] > JUNCTION_START && gap'[m] in nodes && OnLine(nodes[a], nodes[b], nodes[gap'[m]])
    {
      if m != s.value {
        assert gap'[m] == gap[if m < s.value then m else m - 1];
      }
    }
    forall m, n | 0 <= m < n < |gap'|
      ensures DegDist(nodes[gap'[m]], start) <= DegDist(nodes[gap'[n]], start)
    {
      var k := s.value;
      if k < |gap| {
        assert DegDist(nodes[gap[k]], start) >= dn;
      }
    }
  }
}
