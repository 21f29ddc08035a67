/** Emptying every table but the kept ones, in passes that delete what foreign keys allow
    (backend/cmd/cleandev/main.go). A reference blocks the deletion of the row it points to, or is deleted with
    it (ON DELETE CASCADE); one that is set to NULL does neither and does not appear. */
module CleanDev {
  import opened Common

  type Table = string
  type Row = int

  datatype Schema = Schema(table: map<Row, Table>, blocks: set<(Row, Row)>, cascades: set<(Row, Row)>)

  function RowsOf(s: Schema, rows: set<Row>, t: Table): set<Row> {
    set r | r in rows && r in s.table && s.table[r] == t
  }

  /** The rows of a set whose deletion takes `gone` with it. */
  function Dragged(s: Schema, rows: set<Row>, gone: set<Row>): set<Row> {
    set c | c in s.cascades && c.0 in rows && c.1 in gone :: c.0
  }

  /** All rows deleted with the rows in `gone`. */
  function Closure(s: Schema, rows: set<Row>, gone: set<Row>): (d: set<Row>)
    requires gone <= rows
    ensures gone <= d <= rows
    decreases rows - gone
  {
    var more := gone + Dragged(s, rows, gone);
    if more == gone then gone else Closure(s, rows, more)
  }

  /** What DELETE FROM t deletes. */
  function Doomed(s: Schema, rows: set<Row>, t: Table): (d: set<Row>)
    ensures d <= rows
  {
    Closure(s, rows, RowsOf(s, rows, t))
  }

  /** A remaining row refers to a deleted one. */
  predicate Refused(s: Schema, rows: set<Row>, t: Table) {
    exists b :: b in s.blocks && b.0 in rows && b.0 !in Doomed(s, rows, t) && b.1 in Doomed(s, rows, t)
  }

  // ---------------------------------------------------------------------------------------
  // The closure
  // ---------------------------------------------------------------------------------------

  ghost predicate Closed(s: Schema, rows: set<Row>, d: set<Row>) {
    forall c :: c in s.cascades && c.0 in rows && c.1 in d ==> c.0 in d
  }

  lemma {:induction false} ClosureIsClosed(s: Schema, rows: set<Row>, gone: set<Row>)
    requires gone <= rows
    ensures Closed(s, rows, Closure(s, rows, gone))
    decreases rows - gone
  {
    var more := gone + Dragged(s, rows, gone);
    if more != gone {
      ClosureIsClosed(s, rows, more);
    } else {
      forall c | c in s.cascades && c.0 in rows && c.1 in gone
        ensures c.0 in gone
      {
        assert c.0 in Dragged(s, rows, gone);
      }
    }
  }

  lemma {:induction false} ClosureIsLeast(s: Schema, rows: set<Row>, gone: set<Row>, d: set<Row>)
    requires gone <= rows && gone <= d && Closed(s, rows, d)
    ensures Closure(s, rows, gone) <= d
    decreases rows - gone
  {
    var more := gone + Dragged(s, rows, gone);
    if more != gone {
      ClosureIsLeast(s, rows, more, d);
    }
  }

  /** Rows left after some deletions: with a row, everything it cascades from is left. */
  ghost predicate LeftOver(s: Schema, rows: set<Row>, left: set<Row>) {
    left <= rows && forall c :: c in s.cascades && c.0 in left && c.1 in rows ==> c.1 in left
  }

  /** Among the rows left, a deletion deletes what it would have deleted of them at the start. */
  lemma DoomedOfLeft(s: Schema, rows: set<Row>, left: set<Row>, t: Table)
    requires LeftOver(s, rows, left)
    ensures Doomed(s, left, t) == Doomed(s, rows, t) * left
  {
    hide Closure, Dragged;
    var all, some := Doomed(s, rows, t), Doomed(s, left, t);
    ClosureIsClosed(s, rows, RowsOf(s, rows, t));
    ClosureIsClosed(s, left, RowsOf(s, left, t));
    ClosureIsLeast(s, left, RowsOf(s, left, t), all * left);
    var wide := some + (rows - left);
    assert Closed(s, rows, wide);
    ClosureIsLeast(s, rows, RowsOf(s, rows, t), wide);
  }

  /** A deletion that is possible stays possible when other tables have gone. */
  lemma StaysPossible(s: Schema, rows: set<Row>, left: set<Row>, t: Table)
    requires LeftOver(s, rows, left) && !Refused(s, rows, t)
    ensures !Refused(s, left, t)
  {
    hide Doomed;
    DoomedOfLeft(s, rows, left, t);
  }

  lemma DeletionLeaves(s: Schema, rows: set<Row>, t: Table)
    ensures LeftOver(s, rows, rows - Doomed(s, rows, t))
    ensures RowsOf(s, rows - Doomed(s, rows, t), t) == {}
  {
    hide Closure, Dragged;
    ClosureIsClosed(s, rows, RowsOf(s, rows, t));
  }

  /** No reference of a row of the set dangles. */
  predicate Sound(s: Schema, rows: set<Row>) {
    && (forall b :: b in s.blocks && b.0 in rows ==> b.1 in rows)
    && (forall c :: c in s.cascades && c.0 in rows ==> c.1 in rows)
  }

  /** A deletion takes the table's rows and what cascades from them, and no more; and it is refused exactly when a
      reference of a row it leaves would dangle. */
  lemma DeletionMeans(s: Schema, rows: set<Row>, t: Table)
    ensures var d := Doomed(s, rows, t);
            && (forall r :: r in rows && r in s.table && s.table[r] == t ==> r in d)
            && (forall c :: c in s.cascades && c.0 in rows && c.1 in d ==> c.0 in d)
            && (forall e :: RowsOf(s, rows, t) <= e && Closed(s, rows, e) ==> d <= e)
            && (Sound(s, rows) ==> (Refused(s, rows, t) <==> !Sound(s, rows - d)))
  {
    hide Closure, Dragged;
    ClosureIsClosed(s, rows, RowsOf(s, rows, t));
    forall e | RowsOf(s, rows, t) <= e && Closed(s, rows, e)
      ensures Doomed(s, rows, t) <= e
    {
      ClosureIsLeast(s, rows, RowsOf(s, rows, t), e);
    }
  }

  // ---------------------------------------------------------------------------------------
  // Any order of deletions
  // ---------------------------------------------------------------------------------------

  /** The rows left after deleting tables one by one; None when a deletion is refused. */
  function InOrder(s: Schema, rows: set<Row>, order: seq<Table>): Option<set<Row>> {
    if order == [] then Some(rows)
    else if Refused(s, rows, order[0]) then None
    else InOrder(s, rows - Doomed(s, rows, order[0]), order[1..])
  }

  /** Some order of deletions of targets empties them all. */
  ghost predicate Possible(s: Schema, rows: set<Row>, targets: seq<Table>) {
    exists order :: Empties(s, rows, targets, order)
  }

  ghost predicate Empties(s: Schema, rows: set<Row>, targets: seq<Table>, order: seq<Table>) {
    && (forall i :: 0 <= i < |order| ==> order[i] in targets)
    && InOrder(s, rows, order).Some?
    && forall i :: 0 <= i < |targets| ==> RowsOf(s, InOrder(s, rows, order).value, targets[i]) == {}
  }

  lemma {:induction false} InOrderAppends(s: Schema, rows: set<Row>, order: seq<Table>, t: Table)
    requires InOrder(s, rows, order).Some? && !Refused(s, InOrder(s, rows, order).value, t)
    ensures var left := InOrder(s, rows, order).value;
            InOrder(s, rows, order + [t]) == Some(left - Doomed(s, left, t))
  {
    hide Refused, Doomed;
    if order == [] {
      assert [t][1..] == [];
    } else {
      InOrderAppends(s, rows - Doomed(s, rows, order[0]), order[1..], t);
      assert (order + [t])[1..] == order[1..] + [t];
    }
  }

  /** Where every target is either empty or refused, no order of deletions gets any further. */
  lemma {:induction false} NoWayOn(s: Schema, start: set<Row>, rows: set<Row>, stuck: set<Row>, order: seq<Table>)
    requires LeftOver(s, start, stuck) && LeftOver(s, start, rows) && stuck <= rows
    requires forall i :: 0 <= i < |order| ==> RowsOf(s, stuck, order[i]) == {} || Refused(s, stuck, order[i])
    requires InOrder(s, rows, order).Some?
    ensures stuck <= InOrder(s, rows, order).value
  {
    hide Refused, Doomed, RowsOf;
    if order != [] {
      var t := order[0];
      assert LeftOver(s, rows, stuck);
      if Refused(s, stuck, t) {
        StaysPossible(s, rows, stuck, t);
      }
      DoomedOfLeft(s, rows, stuck, t);
      NothingDoomed(s, stuck, t);
      DeletionLeaves(s, rows, t);
      var gone := Doomed(s, rows, t);
      var rest := rows - gone;
      assert gone * stuck == {};
      forall r | r in stuck
        ensures r in rest
      {
        assert r in gone ==> r in gone * stuck;
      }
      assert forall i :: 0 <= i < |order[1..]| ==> order[1..][i] == order[i + 1];
      NoWayOn(s, start, rest, stuck, order[1..]);
    }
  }

  lemma NothingDoomed(s: Schema, rows: set<Row>, t: Table)
    ensures RowsOf(s, rows, t) == {} ==> Doomed(s, rows, t) == {}
  {
    if RowsOf(s, rows, t) == {} {
      assert Dragged(s, rows, {}) == {};
    }
  }

  lemma RefusedHasRows(s: Schema, rows: set<Row>, t: Table)
    requires Refused(s, rows, t)
    ensures RowsOf(s, rows, t) != {}
  {
    hide Closure;
    NothingDoomed(s, rows, t);
  }

  // ---------------------------------------------------------------------------------------
  // The passes
  // ---------------------------------------------------------------------------------------

  class Database {
    var rows: set<Row>

    constructor (rows: set<Row>)
      ensures this.rows == rows
    {
      this.rows := rows;
    }
  }

  /** Where the passes stand: an order of deletions led here, and the tables not remaining are empty. */
  ghost predicate Reached(
    s: Schema, start: set<Row>, rows: set<Row>, targets: seq<Table>, remaining: set<Table>, order: seq<Table>)
  {
    && LeftOver(s, start, rows)
    && InOrder(s, start, order) == Some(rows)
    && (forall i :: 0 <= i < |order| ==> order[i] in targets)
    && (forall t :: t in remaining ==> t in targets)
    && (forall t :: t in targets && t !in remaining ==> RowsOf(s, rows, t) == {})
  }

  lemma TableGoes(
    s: Schema, start: set<Row>, rows: set<Row>, targets: seq<Table>, remaining: set<Table>, order: seq<Table>, t: Table)
    requires Reached(s, start, rows, targets, remaining, order) && t in targets && !Refused(s, rows, t)
    ensures Reached(s, start, rows - Doomed(s, rows, t), targets, remaining - {t}, order + [t])
  {
    hide Refused, Doomed;
    InOrderAppends(s, start, order, t);
    DeletionLeaves(s, rows, t);
  }

  function Elements(ts: seq<Table>): set<Table> {
    set t | t in ts
  }

  /** One pass over the remaining tables: each is deleted or, behind a savepoint, left. */
  method Pass(
    s: Schema, ghost start: set<Row>, rows: set<Row>, targets: seq<Table>, remaining: seq<Table>,
    ghost order: seq<Table>)
    returns (left: set<Row>, stuck: seq<Table>, progress: bool, ghost order': seq<Table>)
    requires Reached(s, start, rows, targets, Elements(remaining), order)
    ensures Reached(s, start, left, targets, Elements(stuck), order')
    ensures progress ==> |stuck| < |remaining|
    ensures !progress ==> stuck == remaining && left == rows && forall t :: t in stuck ==> Refused(s, rows, t)
  {
    hide Refused, Doomed, Reached;
    left, stuck, progress, order' := rows, [], false, order;
    assert remaining[0..] == remaining && [] + remaining == remaining;
    for k := 0 to |remaining|
      invariant Reached(s, start, left, targets, Elements(stuck + remaining[k..]), order')
      invariant |stuck| <= k && (progress ==> |stuck| < k)
      invariant !progress ==> left == rows && stuck == remaining[..k] && forall t :: t in stuck ==> Refused(s, rows, t)
    {
      var t := remaining[k];
      assert remaining[k..] == [t] + remaining[k + 1..];
      if Refused(s, left, t) {
        assert stuck + remaining[k..] == (stuck + [t]) + remaining[k + 1..];
        stuck := stuck + [t];
      } else {
        ghost var before, after := Elements(stuck + remaining[k..]), Elements(stuck + remaining[k + 1..]);
        RemainingAreTargets(s, start, left, targets, before, order');
        TableGoes(s, start, left, targets, before, order', t);
        left := left - Doomed(s, left, t);
        order' := order' + [t];
        FewerRemain(s, start, left, targets, before - {t}, after, order');
        progress := true;
      }
    }
    assert stuck + remaining[|remaining|..] == stuck;
    assert remaining[..|remaining|] == remaining;
  }

  lemma RemainingAreTargets(
    s: Schema, start: set<Row>, rows: set<Row>, targets: seq<Table>, remaining: set<Table>, order: seq<Table>)
    requires Reached(s, start, rows, targets, remaining, order)
    ensures forall t :: t in remaining ==> t in targets
  {
  }

  /** A table that still remains although it was emptied may be forgotten or kept. */
  lemma FewerRemain(
    s: Schema, start: set<Row>, rows: set<Row>, targets: seq<Table>, fewer: set<Table>,
    remaining: set<Table>, order: seq<Table>)
    requires Reached(s, start, rows, targets, fewer, order) && fewer <= remaining
    requires forall t :: t in remaining ==> t in targets
    ensures Reached(s, start, rows, targets, remaining, order)
  {
  }

  /** The whole run in one transaction: all targets are emptied when any order of deletions empties them, and
      otherwise nothing is deleted and the tables still refused are reported. */
  method Run(s: Schema, db: Database, targets: seq<Table>) returns (r: Result<(), seq<Table>>)
    modifies db
    ensures r.Ok? <==> Possible(s, old(db.rows), targets)
    ensures r.Ok? ==> LeftOver(s, old(db.rows), db.rows) && forall t :: t in targets ==> RowsOf(s, db.rows, t) == {}
    ensures r.Err? ==> db.rows == old(db.rows) && r.error != []
    ensures r.Err? ==> exists left :: IsStuck(s, old(db.rows), left, targets, Elements(r.error))
  {
    hide Refused, Doomed, RowsOf;
    ghost var start := db.rows;
    var rows, remaining := db.rows, targets;
    ghost var order: seq<Table> := [];
    while |remaining| > 0
      invariant db.rows == start && Reached(s, start, rows, targets, Elements(remaining), order)
      decreases |remaining|
    {
      var left, stuck, progress;
      ghost var order';
      left, stuck, progress, order' := Pass(s, start, rows, targets, remaining, order);
      if !progress {
        assert stuck[0] in Elements(stuck);
        NothingElseWorks(s, start, rows, targets, Elements(stuck));
        return Err(stuck);
      }
      rows, remaining, order := left, stuck, order';
    }
    assert Empties(s, start, targets, order);
    db.rows := rows;
    return Ok(());
  }

  /** Rows in which exactly the reported tables are left, and every one of them is refused. */
  ghost predicate IsStuck(s: Schema, start: set<Row>, left: set<Row>, targets: seq<Table>, stuck: set<Table>) {
    && LeftOver(s, start, left)
    && (forall t :: t in stuck ==> t in targets && Refused(s, left, t))
    && (forall t :: t in targets && t !in stuck ==> RowsOf(s, left, t) == {})
  }

  /** Where some target is left and every target left is refused, no order of deletions empties them all. */
  lemma NothingElseWorks(s: Schema, start: set<Row>, left: set<Row>, targets: seq<Table>, stuck: set<Table>)
    requires IsStuck(s, start, left, targets, stuck) && stuck != {}
    ensures !Possible(s, start, targets)
  {
    hide Refused, Doomed, RowsOf;
    if Possible(s, start, targets) {
      var order :| Empties(s, start, targets, order);
      NoWayOn(s, start, start, left, order);
      var t :| t in stuck;
      RefusedHasRows(s, left, t);
      RowsGrow(s, left, InOrder(s, start, order).value, t);
    }
  }

  /** Either all targets can be emptied or the passes get stuck. */
  lemma {:induction false} EmptiedOrStuck(
    s: Schema, start: set<Row>, rows: set<Row>, targets: seq<Table>, remaining: set<Table>, order: seq<Table>)
    requires Reached(s, start, rows, targets, remaining, order)
    ensures Possible(s, start, targets) || exists left, stuck :: stuck != {} && IsStuck(s, start, left, targets, stuck)
    decreases |remaining|
  {
    hide Refused, Doomed, RowsOf;
    if remaining == {} {
      assert Empties(s, start, targets, order);
    } else if forall t :: t in remaining ==> Refused(s, rows, t) {
      assert IsStuck(s, start, rows, targets, remaining);
    } else {
      var t :| t in remaining && !Refused(s, rows, t);
      TableGoes(s, start, rows, targets, remaining, order, t);
      EmptiedOrStuck(s, start, rows - Doomed(s, rows, t), targets, remaining - {t}, order + [t]);
    }
  }

  /** With any cascades: the targets can be emptied exactly when no part of the rows, holding with a row all it
      cascades from, has a row of a target and refuses every target it has rows of. */
  lemma PossibleIffNeverStuck(s: Schema, rows: set<Row>, targets: seq<Table>)
    ensures Possible(s, rows, targets) <==>
            !exists left, stuck :: stuck != {} && IsStuck(s, rows, left, targets, stuck)
  {
    hide Refused, Doomed, RowsOf, Possible;
    if left, stuck :| stuck != {} && IsStuck(s, rows, left, targets, stuck) {
      NothingElseWorks(s, rows, left, targets, stuck);
    } else {
      assert Reached(s, rows, rows, targets, Elements(targets), []);
      EmptiedOrStuck(s, rows, rows, targets, Elements(targets), []);
    }
  }

  lemma RowsGrow(s: Schema, rows: set<Row>, more: set<Row>, t: Table)
    requires rows <= more
    ensures RowsOf(s, rows, t) <= RowsOf(s, more, t)
  {
  }

  // ---------------------------------------------------------------------------------------
  // Cycles
  // ---------------------------------------------------------------------------------------

  /** A row of another table of the set, or of a kept table, blocks the table. */
  ghost predicate HeldBy(s: Schema, rows: set<Row>, targets: seq<Table>, knot: set<Table>, t: Table) {
    exists b :: b in s.blocks && b.0 in rows && b.1 in RowsOf(s, rows, t)
                && b.0 in s.table && s.table[b.0] != t && (s.table[b.0] in knot || s.table[b.0] !in targets)
  }

  /** Targets none of which can go before another one of them. */
  ghost predicate Knot(s: Schema, rows: set<Row>, targets: seq<Table>, knot: set<Table>) {
    && knot != {} && (forall t :: t in knot ==> t in targets)
    && (forall t :: t in knot ==> HeldBy(s, rows, targets, knot, t))
  }

  lemma DoomedAlone(s: Schema, rows: set<Row>, t: Table)
    requires s.cascades == {}
    ensures Doomed(s, rows, t) == RowsOf(s, rows, t)
  {
    assert Dragged(s, rows, RowsOf(s, rows, t)) == {};
  }

  lemma HeldIsRefused(s: Schema, start: set<Row>, rows: set<Row>, targets: seq<Table>, knot: set<Table>, t: Table)
    requires s.cascades == {} && rows <= start && t in knot && HeldBy(s, start, targets, knot, t)
    requires forall r :: r in start && r in s.table && (s.table[r] in knot || s.table[r] !in targets) ==> r in rows
    ensures Refused(s, rows, t)
  {
    hide Doomed;
    DoomedAlone(s, rows, t);
    var b :| b in s.blocks && b.0 in start && b.1 in RowsOf(s, start, t)
             && b.0 in s.table && s.table[b.0] != t && (s.table[b.0] in knot || s.table[b.0] !in targets);
    var from, to := b.0, b.1;
    assert from in start && to in start && s.table[to] == t;
    assert from in rows && to in rows;
    assert b.1 in Doomed(s, rows, t) && b.0 !in Doomed(s, rows, t);
  }

  /** As long as nothing of the set or of the kept tables has gone, nothing of the set goes. */
  lemma {:induction false} KnotHolds(
    s: Schema, start: set<Row>, rows: set<Row>, targets: seq<Table>, knot: set<Table>, order: seq<Table>)
    requires s.cascades == {} && Knot(s, start, targets, knot) && rows <= start
    requires forall r :: r in start && r in s.table && (s.table[r] in knot || s.table[r] !in targets) ==> r in rows
    requires forall i :: 0 <= i < |order| ==> order[i] in targets
    requires InOrder(s, rows, order).Some?
    ensures forall r :: r in start && r in s.table && s.table[r] in knot ==> r in InOrder(s, rows, order).value
  {
    hide Doomed;
    if order != [] {
      var t := order[0];
      DoomedAlone(s, rows, t);
      if t in knot {
        HeldIsRefused(s, start, rows, targets, knot, t);
      }
      assert forall i :: 0 <= i < |order[1..]| ==> order[1..][i] == order[i + 1];
      KnotHolds(s, start, rows - Doomed(s, rows, t), targets, knot, order[1..]);
    }
  }

  /** Without cascades, and with every row in a table: the targets can be emptied exactly when no set of them is
      knotted, each blocked by a row of another one of them or of a kept table. */
  lemma PossibleIffNoKnot(s: Schema, rows: set<Row>, targets: seq<Table>)
    requires s.cascades == {} && (forall r :: r in rows ==> r in s.table)
    ensures Possible(s, rows, targets) <==> !exists knot :: Knot(s, rows, targets, knot)
  {
    hide Refused;
    if Possible(s, rows, targets) && exists knot :: Knot(s, rows, targets, knot) {
      var order :| Empties(s, rows, targets, order);
      var knot :| Knot(s, rows, targets, knot);
      KnotHolds(s, rows, rows, targets, knot, order);
      KnotHasRows(s, rows, targets, knot, InOrder(s, rows, order).value);
    } else if !Possible(s, rows, targets) {
      assert Reached(s, rows, rows, targets, Elements(targets), []);
      EmptiedOrStuck(s, rows, rows, targets, Elements(targets), []);
      var left, stuck :| stuck != {} && IsStuck(s, rows, left, targets, stuck);
      StuckIsKnot(s, rows, left, targets, stuck);
    }
  }

  lemma KnotHasRows(s: Schema, rows: set<Row>, targets: seq<Table>, knot: set<Table>, left: set<Row>)
    requires Knot(s, rows, targets, knot)
    requires forall r :: r in rows && r in s.table && s.table[r] in knot ==> r in left
    ensures exists i :: 0 <= i < |targets| && RowsOf(s, left, targets[i]) != {}
  {
    var t :| t in knot;
    assert HeldBy(s, rows, targets, knot, t);
    var b :| b in s.blocks && b.0 in rows && b.1 in RowsOf(s, rows, t)
             && b.0 in s.table && s.table[b.0] != t && (s.table[b.0] in knot || s.table[b.0] !in targets);
    var to := b.1;
    assert to in rows && to in s.table && s.table[to] == t;
    assert to in RowsOf(s, left, t);
    var i :| 0 <= i < |targets| && targets[i] == t;
  }

  lemma StuckIsKnot(s: Schema, rows: set<Row>, left: set<Row>, targets: seq<Table>, stuck: set<Table>)
    requires s.cascades == {} && (forall r :: r in rows ==> r in s.table)
    requires stuck != {} && IsStuck(s, rows, left, targets, stuck)
    ensures Knot(s, rows, targets, stuck)
  {
    hide Doomed;
    forall t | t in stuck
      ensures HeldBy(s, rows, targets, stuck, t)
    {
      DoomedAlone(s, left, t);
      var b :| b in s.blocks && b.0 in left && b.0 !in Doomed(s, left, t) && b.1 in Doomed(s, left, t);
      var from, to := b.0, b.1;
      assert from in rows && to in left && s.table[to] == t;
      assert from in RowsOf(s, left, s.table[from]);
      assert s.table[from] in targets ==> s.table[from] in stuck;
      assert b.0 in rows && b.1 in RowsOf(s, rows, t);
    }
  }
}
