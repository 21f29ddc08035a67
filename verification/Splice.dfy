/** Splicing a junction into a road (maps/scripts/driver-streets-to-osc.py, insert_on_segment). */
module Splice {
  import opened Common
  import opened Geometry

  /** The squared distance in degrees by which junctions are ordered. */
  function DegDist(p: Point, q: Point): real {
    Square(p.lat - q.lat) + Square(p.lon - q.lon)
  }

  function Other(x: int, a: int, b: int): int {
    if x == a then b else a
  }

  /** The first position of x from `from` on, or the length. */
  function NextAt(refs: seq<int>, x: int, from: nat): (j: nat)
    requires from <= |refs|
    ensures from <= j <= |refs|
    ensures j < |refs| ==> refs[j] == x
    ensures forall m :: from <= m < j ==> refs[m] != x
    decreases |refs| - from
  {
    if from == |refs| || refs[from] == x then from else NextAt(refs, x, from + 1)
  }

  /** The first node of {a, b} met from i on that has the other one after it, and that other one. */
  function Met(refs: seq<int>, a: int, b: int, i: nat): (m: Option<(nat, nat)>)
    ensures m.Some? ==>
              var (p, q) := m.value;
              i <= p < q < |refs| && refs[p] in {a, b} && refs[q] == Other(refs[p], a, b)
    decreases |refs| - i
  {
    if i + 1 >= |refs| then None
    else if refs[i] == a || refs[i] == b then
      var j := NextAt(refs, Other(refs[i], a, b), i + 1);
      if j < |refs| then Some((i, j)) else Met(refs, a, b, i + 1)
    else Met(refs, a, b, i + 1)
  }

  /** The first place in k..j not nearer to the start than dn; none when a node on the way is unknown. */
  function Slot(refs: seq<int>, nodes: map<int, Point>, start: Point, dn: real, k: nat, j: nat): (m: Option<nat>)
    requires k <= j <= |refs|
    ensures m.Some? ==> k <= m.value <= j
    ensures m.Some? ==> forall n :: k <= n < m.value ==> refs[n] in nodes && DegDist(nodes[refs[n]], start) < dn
    ensures m.Some? && m.value < j ==>
              refs[m.value] in nodes && DegDist(nodes[refs[m.value]], start) >= dn
    decreases j - k
  {
    if k == j then Some(j)
    else if refs[k] !in nodes then None
    else if DegDist(nodes[refs[k]], start) < dn then Slot(refs, nodes, start, dn, k + 1, j)
    else Some(k)
  }

  function InsertAt(refs: seq<int>, k: nat, x: int): (r: seq<int>)
    requires k <= |refs|
    ensures |r| == |refs| + 1 && r[k] == x
    ensures forall m :: 0 <= m < k ==> r[m] == refs[m]
    ensures forall m :: k < m < |r| ==> r[m] == refs[m - 1]
  {
    refs[..k] + [x] + refs[k..]
  }

  /** The refs with the junction; none stands for a lookup of an unknown node. */
  function Spliced(refs: seq<int>, a: int, b: int, x: int, nodes: map<int, Point>, pos: Point): Option<seq<int>> {
    match Met(refs, a, b, 0)
    case None => Some(refs)
    case Some((i, j)) =>
      if refs[i] !in nodes then None
      else
        match Slot(refs, nodes, nodes[refs[i]], DegDist(pos, nodes[refs[i]]), i + 1, j)
        case None => None
        case Some(k) => Some(InsertAt(refs, k, x))
  }

  method FindSlot(refs: seq<int>, nodes: map<int, Point>, start: Point, dn: real, i: nat, j: nat)
    returns (m: Option<nat>)
    requires i <= j <= |refs|
    ensures m == Slot(refs, nodes, start, dn, i, j)
  {
    hide DegDist;
    var k := i;
    while k < j
      invariant i <= k <= j
      invariant Slot(refs, nodes, start, dn, i, j) == Slot(refs, nodes, start, dn, k, j)
    {
      if refs[k] !in nodes {
        return None;
      }
      if DegDist(nodes[refs[k]], start) >= dn {
        break;
      }
      k := k + 1;
    }
    return Some(k);
  }

  method InsertBetween(
    refs: seq<int>, a: int, b: int, x: int, nodes: map<int, Point>, pos: Point, i: nat, j: nat)
    returns (r: Option<seq<int>>)
    requires i < j < |refs| && Met(refs, a, b, 0) == Some((i, j))
    ensures r == Spliced(refs, a, b, x, nodes, pos)
  {
    hide DegDist, Slot, Met, InsertAt;
    if refs[i] !in nodes {
      return None;
    }
    var k := FindSlot(refs, nodes, nodes[refs[i]], DegDist(pos, nodes[refs[i]]), i + 1, j);
    return if k.None? then None else Some(InsertAt(refs, k.value, x));
  }

  method InsertOnSegment(refs: seq<int>, a: int, b: int, x: int, nodes: map<int, Point>, pos: Point)
    returns (r: Option<seq<int>>)
    ensures r == Spliced(refs, a, b, x, nodes, pos)
  {
    hide DegDist, Slot, InsertAt;
    var i := 0;
    while i < |refs| - 1
      invariant 0 <= i
      invariant Met(refs, a, b, 0) == Met(refs, a, b, i)
    {
      if refs[i] == a || refs[i] == b {
        var other := Other(refs[i], a, b);
        var j := i + 1;
        while j < |refs| && refs[j] != other
          invariant i + 1 <= j <= |refs|
          invariant NextAt(refs, other, i + 1) == NextAt(refs, other, j)
        {
          j := j + 1;
        }
        if j < |refs| {
          r := InsertBetween(refs, a, b, x, nodes, pos, i, j);
          return;
        }
      }
      i := i + 1;
    }
    return Some(refs);
  }

  lemma {:induction false} MetIs(refs: seq<int>, a: int, b: int, i: nat, p: nat, q: nat)
    requires i <= p < q < |refs|
    requires refs[p] in {a, b} && refs[q] == Other(refs[p], a, b)
    requires forall m :: i <= m < p ==> refs[m] != a && refs[m] != b
    requires forall m :: p < m < q ==> refs[m] != Other(refs[p], a, b)
    ensures Met(refs, a, b, i) == Some((p, q))
    decreases p - i
  {
    if i < p {
      MetIs(refs, a, b, i + 1, p, q);
    } else {
      var j := NextAt(refs, Other(refs[p], a, b), p + 1);
      assert j == q;
    }
  }

  /** A way that contains both nodes of a segment always takes the junction. */
  lemma {:induction false} OrderedIsMet(refs: seq<int>, a: int, b: int, i: nat, p: nat, q: nat)
    requires i <= p < q < |refs| && refs[p] == a && refs[q] == b
    ensures Met(refs, a, b, i).Some?
    decreases p - i
  {
    if i < p {
      OrderedIsMet(refs, a, b, i + 1, p, q);
    }
  }

  // ----- where the junction lands -----

  /** The junction at k stands directly between the two nodes of its segment. */
  predicate OnSegment(refs: seq<int>, k: nat, a: int, b: int) {
    0 < k < |refs| - 1 && ((refs[k - 1] == a && refs[k + 1] == b) || (refs[k - 1] == b && refs[k + 1] == a))
  }

  /** Into a way without junctions the new node goes directly between a and b exactly when the node
      before the other end is the first-met one and nothing between them is as far away: always when
      the two are met side by side, and not, say, on the last segment of a closed way. */
  lemma LandsOnSegmentIff(refs: seq<int>, a: int, b: int, x: int, nodes: map<int, Point>, pos: Point, k: nat)
    requires a != b && x !in refs && k < |refs| + 1
    requires Met(refs, a, b, 0).Some?
    requires Spliced(refs, a, b, x, nodes, pos) == Some(InsertAt(refs, k, x))
    requires var (i, j) := Met(refs, a, b, 0).value; refs[i] in nodes && DegDist(pos, nodes[refs[i]]) > 0.0
    ensures var (i, j) := Met(refs, a, b, 0).value;
            OnSegment(InsertAt(refs, k, x), k, a, b) <==>
              refs[j - 1] == refs[i]
              && forall m :: i < m < j ==>
                   refs[m] in nodes && DegDist(nodes[refs[m]], nodes[refs[i]]) < DegDist(pos, nodes[refs[i]])
  {
    var (i, j) := Met(refs, a, b, 0).value;
    var slot := Slot(refs, nodes, nodes[refs[i]], DegDist(pos, nodes[refs[i]]), i + 1, j).value;
    var r := InsertAt(refs, k, x);
    assert slot == k by {
      assert InsertAt(refs, slot, x)[slot] == x && InsertAt(refs, k, x)[k] == x;
    }
    MetIsFirst(refs, a, b, 0);
    assert forall m :: i < m < j ==> refs[m] != Other(refs[i], a, b);
    assert DegDist(nodes[refs[i]], nodes[refs[i]]) == 0.0;
  }

  lemma {:induction false} MetIsFirst(refs: seq<int>, a: int, b: int, i: nat)
    requires Met(refs, a, b, i).Some?
    ensures var (p, q) := Met(refs, a, b, i).value;
            forall m :: p < m < q ==> refs[m] != Other(refs[p], a, b)
    decreases |refs| - i
  {
    if !((refs[i] == a || refs[i] == b) && NextAt(refs, Other(refs[i], a, b), i + 1) < |refs|) {
      MetIsFirst(refs, a, b, i + 1);
    }
  }

  lemma SplicedAt(
    refs: seq<int>, a: int, b: int, x: int, nodes: map<int, Point>, pos: Point, i: nat, j: nat, k: nat)
    requires i < j <= |refs| && Met(refs, a, b, 0) == Some((i, j)) && refs[i] in nodes
    requires Slot(refs, nodes, nodes[refs[i]], DegDist(pos, nodes[refs[i]]), i + 1, j) == Some(k)
    ensures Spliced(refs, a, b, x, nodes, pos) == Some(InsertAt(refs, k, x))
  {
    hide DegDist, Met, Slot, InsertAt;
  }

  /** The last segment of a closed way w, x, y, w is spliced on its first, whenever x is at least as far
      from w as the junction: between w and x instead of between y and w. */
  lemma ClosedWayIsSplicedElsewhere(w: int, x: int, y: int, junction: int, nodes: map<int, Point>, pos: Point)
    requires w != x && x != y && w != y && w in nodes && x in nodes
    requires DegDist(nodes[x], nodes[w]) >= DegDist(pos, nodes[w])
    ensures Spliced([w, x, y, w], y, w, junction, nodes, pos) == Some([w, junction, x, y, w])
  {
    var refs := [w, x, y, w];
    MetIs(refs, y, w, 0, 0, 2);
    hide DegDist, Met, Slot, Spliced;
    assert InsertAt(refs, 1, junction) == [w, junction, x, y, w];
  }

  /** On a segment the order of distance from an end is the order of the shares. */
  lemma SharesOrder(a: Point, b: Point, t: real, u: real)
    requires a != b && 0.0 <= t <= 1.0 && 0.0 <= u <= 1.0
    ensures DegDist(Along(a, b, t), a) < DegDist(Along(a, b, u), a) <==> t < u
    ensures DegDist(Along(a, b, t), b) < DegDist(Along(a, b, u), b) <==> u < t
  {
    hide DegDist, Along;
    var len := DegDist(a, b);
    LengthIsPositive(a, b);
    ShareDist(a, b, t);
    ShareDist(a, b, u);
    SquaresOrder(t, u, len);
    SquaresOrder(1.0 - t, 1.0 - u, len);
  }

  lemma LengthIsPositive(a: Point, b: Point)
    requires a != b
    ensures DegDist(a, b) > 0.0
  {
    if a.lat != b.lat {
      NotZero(a.lat - b.lat);
    } else {
      NotZero(a.lon - b.lon);
    }
  }

  lemma NotZero(x: real)
    requires x != 0.0
    ensures Square(x) > 0.0
  {
    if x > 0.0 {
      Product(x, x, x * x);
    } else {
      var z: real := -x;
      Negated(x, z);
      Product(z, z, z * z);
      assert x * x > 0.0;
    }
  }

  lemma Product(x: real, y: real, p: real)
    requires x > 0.0 && y > 0.0 && p == x * y
    ensures p > 0.0
  {
  }

  lemma Negated(x: real, z: real)
    requires z == -x
    ensures z * z == x * x
  {
  }

  lemma ShareDist(a: Point, b: Point, t: real)
    ensures DegDist(Along(a, b, t), a) == Square(t) * DegDist(a, b)
    ensures DegDist(Along(a, b, t), b) == Square(1.0 - t) * DegDist(a, b)
  {
    hide Square;
    Coordinate(a.lat, b.lat, t, b.lat - a.lat, a.lat - b.lat);
    Coordinate(a.lon, b.lon, t, b.lon - a.lon, a.lon - b.lon);
    Scaled(a, b, Along(a, b, t), a, t, b.lat - a.lat, b.lon - a.lon);
    Scaled(a, b, Along(a, b, t), b, 1.0 - t, a.lat - b.lat, a.lon - b.lon);
  }

  lemma Coordinate(a: real, b: real, t: real, x: real, u: real)
    requires x == b - a && u == a - b
    ensures a + t * (b - a) - a == t * x
    ensures a + t * (b - a) - b == (1.0 - t) * u
  {
    Distributes(t, u);
    TimesNegated(t, u);
  }

  /** A point whose differences to an end are the same share of the segment's. */
  lemma Scaled(a: Point, b: Point, p: Point, end: Point, s: real, x: real, y: real)
    requires p.lat - end.lat == s * x && p.lon - end.lon == s * y
    requires (x == b.lat - a.lat && y == b.lon - a.lon) || (x == a.lat - b.lat && y == a.lon - b.lon)
    ensures DegDist(p, end) == Square(s) * DegDist(a, b)
  {
    hide Square;
    ScaledSquares(s, x, y);
    SameSquare(x);
    SameSquare(y);
  }

  lemma TimesNegated(t: real, x: real)
    ensures t * -x == -(t * x)
  {
  }

  lemma Distributes(t: real, x: real)
    ensures (1.0 - t) * x == x - t * x
  {
  }

  lemma SameSquare(x: real)
    ensures Square(-x) == Square(x)
  {
  }

  lemma ScaledSquares(t: real, x: real, y: real)
    ensures Square(t * x) + Square(t * y) == Square(t) * (Square(x) + Square(y))
  {
    SquareOfProduct(t, x);
    SquareOfProduct(t, y);
  }

  lemma SquareOfProduct(t: real, x: real)
    ensures Square(t * x) == Square(t) * Square(x)
  {
    assert t * x * (t * x) == t * t * (x * x);
  }

  lemma SquaresOrder(t: real, u: real, len: real)
    requires t >= 0.0 && u >= 0.0 && len > 0.0
    ensures Square(t) * len < Square(u) * len <==> t < u
  {
    if t < u {
      SquareLess(t, u);
      Times(Square(t), Square(u), len);
    } else if u < t {
      SquareLess(u, t);
      Times(Square(u), Square(t), len);
    }
  }

  lemma SquareLess(t: real, u: real)
    requires 0.0 <= t < u
    ensures Square(t) < Square(u)
  {
    var p := (u - t) * (u + t);
    SquaresDiffer(t, u, p);
    Product(u - t, u + t, p);
  }

  lemma SquaresDiffer(t: real, u: real, p: real)
    requires p == (u - t) * (u + t)
    ensures Square(u) - Square(t) == p
  {
  }

  lemma Times(x: real, y: real, len: real)
    requires x < y && len > 0.0
    ensures x * len < y * len
  {
  }
}
