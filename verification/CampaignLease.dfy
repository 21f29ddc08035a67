/** What the five-minute lease of a claim gives, and what is lost when an execution outlives it
    (backend/internal/campaigns/send.go:26-47, 169-186, 212-216). */
module CampaignLease {
  import opened Common
  import opened Quiet
  import opened Campaigns
  import opened CampaignProtocol

  /** Time does not pass an executor's lease: every execution ends or dies within it. */
  predicate Timely(w: World, s: Step) {
    s.Tick? ==> forall p :: p in w.execs ==> s.to <= w.execs[p].since + LEASE
  }

  ghost predicate TimelyRun(cfg: Config, worlds: seq<World>, steps: seq<Step>) {
    Run(cfg, worlds, steps) && forall i :: 0 <= i < |steps| ==> Timely(worlds[i], steps[i])
  }

  /** An executor holds the claim of its campaign, within its lease. */
  ghost predicate Holds(w: World, e: Exec) {
    && e.c in w.rows && w.rows[e.c].status == Sending && w.rows[e.c].claimedAt == Some(e.since)
    && w.now <= e.since + LEASE
  }

  /** Every executor holds its campaign, and no two have the same. */
  ghost predicate Exclusive(w: World) {
    && (forall p :: p in w.execs ==> Holds(w, w.execs[p]))
    && (forall p, q :: p in w.execs && q in w.execs && p != q ==> w.execs[p].c != w.execs[q].c)
  }

  predicate Terminal(s: Status) {
    s == Sent || s == Cancelled || s == Failed
  }

  /** A row that is done stays as it is, and a cancelled campaign gains no recipient. */
  ghost predicate DoneStays(w: World, w': World) {
    && (forall c :: c in w.rows && Terminal(w.rows[c].status) ==> c in w'.rows && w'.rows[c] == w.rows[c])
    && (forall c, u :: c in w.rows && Terminal(w.rows[c].status) && (c, u) in w'.recips ==> (c, u) in w.recips)
    && (forall k :: k in w.recips ==> k in w'.recips)
  }

  lemma ExclusiveShared(cfg: Config, w: World, s: Step, w': World)
    requires Exclusive(w) && Timely(w, s) && Do(cfg, w, s) == Some(w')
    requires s.Tick? || s.Create? || s.CancelIt? || s.ClaimIt? || s.Crash?
    ensures Exclusive(w') && DoneStays(w, w')
  {
    hide DoExec;
    if s.ClaimIt? {
      forall q | q in w.execs
        ensures w.execs[q].c != s.c
      {
        assert Holds(w, w.execs[q]);
      }
    } else if s.CancelIt? {
      forall q | q in w.execs
        ensures w.execs[q].c != s.c
      {
        assert Holds(w, w.execs[q]);
      }
    }
    forall q | q in w'.execs
      ensures Holds(w', w'.execs[q])
    {
      if q in w.execs {
        assert Holds(w, w.execs[q]);
      }
    }
  }

  /** What an executor's step can touch: its own place, its own campaign's row, and a recipient of its campaign. */
  ghost predicate Local(w: World, p: Pid, w': World)
    requires p in w.execs
  {
    var e := w.execs[p];
    && w'.now == w.now
    && (forall q :: q in w'.execs ==>
        q in w.execs && w'.execs[q].c == w.execs[q].c && w'.execs[q].since == w.execs[q].since)
    && (forall c :: c in w.rows ==> c in w'.rows && (c != e.c ==> w'.rows[c] == w.rows[c]))
    && (e.c in w'.rows && w'.rows[e.c] != (if e.c in w.rows then w.rows[e.c] else w'.rows[e.c]) ==> p !in w'.execs)
    && (forall k :: k in w.recips ==> k in w'.recips)
    && (forall k :: k in w'.recips && k !in w.recips ==> k.0 == e.c)
  }

  lemma ExecIsLocal(cfg: Config, w: World, p: Pid, s: Step, w': World)
    requires p in w.execs && DoExec(cfg, w, p, w.execs[p], s) == Some(w')
    ensures Local(w, p, w')
  {
    hide InQuiet, Today, Completed, Fail, Distinct;
  }

  lemma LocalKeepsExclusive(w: World, p: Pid, w': World)
    requires Exclusive(w) && p in w.execs && Local(w, p, w')
    ensures Exclusive(w') && DoneStays(w, w')
  {
    assert Holds(w, w.execs[p]);
    forall q | q in w'.execs
      ensures Holds(w', w'.execs[q])
    {
      assert Holds(w, w.execs[q]);
    }
  }

  lemma ExclusiveExec(cfg: Config, w: World, p: Pid, s: Step, w': World)
    requires Exclusive(w) && p in w.execs && DoExec(cfg, w, p, w.execs[p], s) == Some(w')
    ensures Exclusive(w') && DoneStays(w, w')
  {
    hide DoExec, Exclusive, DoneStays, Local;
    ExecIsLocal(cfg, w, p, s, w');
    LocalKeepsExclusive(w, p, w');
  }

  lemma ExclusiveStep(cfg: Config, w: World, s: Step, w': World)
    requires Exclusive(w) && Timely(w, s) && Do(cfg, w, s) == Some(w')
    ensures Exclusive(w') && DoneStays(w, w')
  {
    hide DoExec, Exclusive, DoneStays, Claimable, Cancellable;
    if s.Tick? || s.Create? || s.CancelIt? || s.ClaimIt? || s.Crash? {
      ExclusiveShared(cfg, w, s, w');
    } else {
      ExclusiveExec(cfg, w, s.p, s, w');
    }
  }

  lemma {:induction false} TimelyIsExclusive(cfg: Config, worlds: seq<World>, steps: seq<Step>, n: nat)
    requires TimelyRun(cfg, worlds, steps) && n < |worlds|
    ensures Exclusive(worlds[n])
  {
    if n > 0 {
      TimelyIsExclusive(cfg, worlds, steps, n - 1);
      hide Exclusive, Do, Timely, DoneStays;
      ExclusiveStep(cfg, worlds[n - 1], steps[n - 1], worlds[n]);
    }
  }

  /** When every execution ends or dies within its lease, at most one executor runs a campaign at a time. */
  lemma OneExecutor(cfg: Config, worlds: seq<World>, steps: seq<Step>, n: nat, p: Pid, q: Pid)
    requires TimelyRun(cfg, worlds, steps) && n < |worlds|
    requires p in worlds[n].execs && q in worlds[n].execs && worlds[n].execs[p].c == worlds[n].execs[q].c
    ensures p == q
  {
    TimelyIsExclusive(cfg, worlds, steps, n);
  }

  /** ... and sent, failed and cancelled are never left, nor does such a campaign gain a recipient. */
  lemma {:induction false} DoneForGood(cfg: Config, worlds: seq<World>, steps: seq<Step>, m: nat, n: nat, c: Id)
    requires TimelyRun(cfg, worlds, steps) && m <= n < |worlds|
    requires c in worlds[m].rows && Terminal(worlds[m].rows[c].status)
    ensures c in worlds[n].rows && worlds[n].rows[c] == worlds[m].rows[c]
    ensures forall u :: (c, u) in worlds[n].recips <==> (c, u) in worlds[m].recips
  {
    hide Exclusive, Do, Timely;
    if m < n {
      DoneForGood(cfg, worlds, steps, m, n - 1, c);
      TimelyIsExclusive(cfg, worlds, steps, n - 1);
      ExclusiveStep(cfg, worlds[n - 1], steps[n - 1], worlds[n]);
    }
  }

  // ---------------------------------------------------------------------------------------
  // Without the assumption
  // ---------------------------------------------------------------------------------------

  /** The row of c is as it was, and so are its recipients. */
  ghost predicate Untouched(w: World, w': World, c: Id) {
    && c in w.rows && c in w'.rows && w'.rows[c] == w.rows[c]
    && forall u :: (c, u) in w'.recips <==> (c, u) in w.recips
  }

  /** An executor of a campaign that is done writes for it all the same: it adds a recipient, or its final
      statement changes the row. Nothing in the source stops it, as none of these statements looks at the
      campaign's status (send.go:171-186, 190-199, 212-216). */
  ghost predicate LateWrite(cfg: Config, w: World, s: Step, c: Id) {
    && c in w.rows && Terminal(w.rows[c].status)
    && match s
       case AddRecipient(p) => p in w.execs && w.execs[p].c == c && AtNewRecipient(w, w.execs[p])
       case LoseInsert(p, stored) => p in w.execs && w.execs[p].c == c && stored && AtNewRecipient(w, w.execs[p])
       case Refuse(p) => p in w.execs && w.execs[p].c == c && Fail(w.rows[c]) != w.rows[c]
       case Complete(p) => p in w.execs && w.execs[p].c == c && Completed(cfg, w.rows[c], w.execs[p]) != w.rows[c]
       case _ => false
  }

  predicate AtNewRecipient(w: World, e: Exec) {
    e.i < |e.ids| && e.Key() !in w.recips
  }

  lemma TouchedByShared(cfg: Config, w: World, s: Step, w': World, c: Id)
    requires Do(cfg, w, s) == Some(w') && c in w.rows && Terminal(w.rows[c].status)
    requires s.Tick? || s.Create? || s.CancelIt? || s.ClaimIt? || s.Crash?
    ensures Untouched(w, w', c)
  {
    hide DoExec;
  }

  lemma NewIsTouch(w: World, w': World, c: Id, u: User)
    requires (c, u) in w'.recips && (c, u) !in w.recips
    ensures !Untouched(w, w', c)
  {
  }

  lemma TouchedByInsert(cfg: Config, w: World, p: Pid, s: Step, w': World, c: Id)
    requires p in w.execs && DoExec(cfg, w, p, w.execs[p], s) == Some(w') && (s.AddRecipient? || s.LoseInsert?)
    requires s.p == p && c in w.rows && Terminal(w.rows[c].status)
    ensures Untouched(w, w', c) <==> !LateWrite(cfg, w, s, c)
  {
    var e := w.execs[p];
    if (s.AddRecipient? || s.stored) && e.Key() !in w.recips {
      assert w'.recips == w.recips[e.Key() := w.now] && w'.rows == w.rows;
      if c == e.c {
        NewIsTouch(w, w', c, e.ids[e.i]);
      } else {
        assert forall u :: (c, u) != e.Key();
      }
    } else {
      assert w'.recips == w.recips && w'.rows == w.rows;
    }
  }

  lemma TouchedByEnd(cfg: Config, w: World, p: Pid, s: Step, w': World, c: Id)
    requires p in w.execs && DoExec(cfg, w, p, w.execs[p], s) == Some(w') && (s.Refuse? || s.Complete?)
    requires s.p == p && c in w.rows && Terminal(w.rows[c].status)
    ensures Untouched(w, w', c) <==> !LateWrite(cfg, w, s, c)
  {
    hide Completed, Fail;
  }

  lemma TouchedByMove(cfg: Config, w: World, p: Pid, s: Step, w': World, c: Id)
    requires p in w.execs && DoExec(cfg, w, p, w.execs[p], s) == Some(w') && c in w.rows
    requires !s.AddRecipient? && !s.LoseInsert? && !s.Refuse? && !s.Complete?
    ensures Untouched(w, w', c)
  {
    hide InQuiet, Today;
  }

  /** Whatever the interleaving: a step touches a campaign that is done exactly when it is a late write to it. */
  lemma TouchedIffLate(cfg: Config, w: World, s: Step, w': World, c: Id)
    requires Do(cfg, w, s) == Some(w') && c in w.rows && Terminal(w.rows[c].status)
    ensures Untouched(w, w', c) <==> !LateWrite(cfg, w, s, c)
  {
    hide DoExec, Untouched, AtNewRecipient, Completed, Fail, Terminal, Claimable, Cancellable;
    if s.Tick? || s.Create? || s.CancelIt? || s.ClaimIt? || s.Crash? {
      TouchedByShared(cfg, w, s, w', c);
    } else if s.AddRecipient? || s.LoseInsert? {
      TouchedByInsert(cfg, w, s.p, s, w', c);
    } else if s.Refuse? || s.Complete? {
      TouchedByEnd(cfg, w, s.p, s, w', c);
    } else {
      TouchedByMove(cfg, w, s.p, s, w', c);
    }
  }

  /** Over every run: a campaign that is done stays as it is up to a later point exactly when no step until then is
      a late write to it. */
  lemma {:induction false} DoneStaysIff(cfg: Config, worlds: seq<World>, steps: seq<Step>, m: nat, n: nat, c: Id)
    requires Run(cfg, worlds, steps) && m <= n < |worlds|
    requires c in worlds[m].rows && Terminal(worlds[m].rows[c].status)
    ensures (forall i :: m <= i <= n ==> Untouched(worlds[m], worlds[i], c)) <==>
            (forall i :: m <= i < n ==> !LateWrite(cfg, worlds[i], steps[i], c))
  {
    hide Do, LateWrite, Terminal;
    if m < n {
      DoneStaysIff(cfg, worlds, steps, m, n - 1, c);
      if Untouched(worlds[m], worlds[n - 1], c) {
        TouchedIffLate(cfg, worlds[n - 1], steps[n - 1], worlds[n], c);
        assert Untouched(worlds[m], worlds[n], c) <==> Untouched(worlds[n - 1], worlds[n], c);
      }
    }
  }

  /** A late write needs an execution that has outlived its lease: some step before it let time pass beyond one. */
  lemma LateAfterLease(cfg: Config, worlds: seq<World>, steps: seq<Step>, n: nat, c: Id)
    requires Run(cfg, worlds, steps) && n < |steps| && LateWrite(cfg, worlds[n], steps[n], c)
    ensures exists i :: 0 <= i < n && !Timely(worlds[i], steps[i])
  {
    hide Do, LateWrite, Exclusive, Timely;
    if forall i :: 0 <= i < n ==> Timely(worlds[i], steps[i]) {
      assert TimelyRun(cfg, worlds[..n + 1], steps[..n]);
      TimelyIsExclusive(cfg, worlds[..n + 1], steps[..n], n);
      LateIsNoTick(cfg, worlds[n], steps[n], c);
      ExclusiveStep(cfg, worlds[n], steps[n], worlds[n + 1]);
      TouchedIffLate(cfg, worlds[n], steps[n], worlds[n + 1], c);
    }
  }

  lemma LateIsNoTick(cfg: Config, w: World, s: Step, c: Id)
    requires LateWrite(cfg, w, s, c)
    ensures Timely(w, s) && c in w.rows && Terminal(w.rows[c].status)
  {
  }

  /** An executor that has come to the end of its audience leaves no campaign cancelled or failed. */
  lemma LateFinish(cfg: Config, w: World, p: Pid)
    requires p in w.execs && w.execs[p].pc.AtHead? && w.execs[p].i == |w.execs[p].ids|
    requires w.execs[p].c in w.rows &&
        (w.rows[w.execs[p].c].status == Cancelled || w.rows[w.execs[p].c].status == Failed)
    ensures var e := w.execs[p];
            var w' := Do(cfg, w, Complete(p));
            && LateWrite(cfg, w, Complete(p), e.c) && w'.Some?
            && w'.value.rows[e.c].status == if e.byQuiet && e.inbox == 0 then Scheduled else Sent
  {
    hide NextAllowed;
  }

  /** The last steps of an executor at its last user: it adds the recipient, notifies and turns the campaign into
      a sent one. */
  lemma LastUser(cfg: Config, w: World, p: Pid, u: User)
    requires p in w.execs && w.execs[p].c in w.rows && Terminal(w.rows[w.execs[p].c].status)
    requires var e := w.execs[p]; e.pc.AtInsert? && e.i + 1 == |e.ids| && e.ids[e.i] == u
    requires w.rows[w.execs[p].c].target.None? && w.execs[p].Key() !in w.recips
    ensures var c := w.execs[p].c;
            exists w1, w2, w3 ::
              && Do(cfg, w, AddRecipient(p)) == Some(w1) && Do(cfg, w1, NotifyUser(p)) == Some(w2)
              && Do(cfg, w2, Complete(p)) == Some(w3)
              && (c, u) in w3.recips && c in w3.rows && w3.rows[c].status == Sent
  {
    hide InQuiet, NextAllowed, Today, Claimable;
    var w1 := Do(cfg, w, AddRecipient(p)).value;
    var w2 := Do(cfg, w1, NotifyUser(p)).value;
    var w3 := Do(cfg, w2, Complete(p)).value;
    assert Do(cfg, w2, Complete(p)) == Some(w3);
  }

  const QUIET := QuietHours(4, 5)

  function Plain(now: int, row: Row, execs: map<Pid, Exec>): World {
    World(now, map[1 := row], map[], execs, [], {}, 0, 0)
  }

  function NewRow(): Row {
    Row(Draft, None, None, None, 0, 0, 0)
  }

  /** The first executor has passed the cap check for user 7. */
  function Stalled(): Exec {
    Exec(1, 0, AtInsert, [7], 0, false, 0, 0, 0)
  }

  lemma HoursOfTheRun()
    ensures HourOf(0) == 3 && HourOf(HOUR) == 4 && !InQuiet(QUIET, 0) && InQuiet(QUIET, HOUR)
  {
    assert DayStart(0) == -OFFSET && DayStart(HOUR) == -OFFSET;
  }

  lemma SingleKey<T>(x: T, y: T)
    ensures map[1 := x][1 := y] == map[1 := y]
  {
  }

  /** An executor claims a campaign outside quiet hours, picks a user, and stalls for an hour. */
  lemma FirstHalf(cfg: Config, w0: World) returns (worlds: seq<World>, steps: seq<Step>)
    requires cfg == Config(QUIET, 1) && w0 == World(0, map[], map[], map[], [], {}, 0, 0)
    ensures Run(cfg, worlds, steps) && worlds[|steps|] == Plain(HOUR, Claim(NewRow(), 0), map[1 := Stalled()])
  {
    HoursOfTheRun();
    hide InQuiet, HourOf, DayStart, NextAllowed;
    var e := Exec(1, 0, AtStart, [], 0, false, 0, 0, 0);
    var e' := e.(pc := AtHead, ids := [7]);
    var w1 := Plain(0, NewRow(), map[]);
    var w2 := Plain(0, Claim(NewRow(), 0), map[1 := e]);
    var w3 := Plain(0, Claim(NewRow(), 0), map[1 := e']);
    var w4 := Plain(0, Claim(NewRow(), 0), map[1 := Stalled()]);
    var w5 := Plain(HOUR, Claim(NewRow(), 0), map[1 := Stalled()]);
    SingleKey(NewRow(), Claim(NewRow(), 0));
    SingleKey(e, e');
    SingleKey(e', Stalled());
    assert Do(cfg, w0, Create(1, None, None)) == Some(w1);
    assert Do(cfg, w1, ClaimIt(1, 1)) == Some(w2);
    assert Do(cfg, w2, ReadAudience(1, [7])) == Some(w3);
    assert Today(w3.recips, 7, w3.now) == {};
    assert Do(cfg, w3, CheckCap(1)) == Some(w4);
    assert Do(cfg, w4, Tick(HOUR)) == Some(w5);
    worlds, steps := [w0, w1, w2, w3, w4, w5],
      [Create(1, None, None), ClaimIt(1, 1), ReadAudience(1, [7]), CheckCap(1), Tick(HOUR)];
  }

  /** Meanwhile a second executor claims it, finds quiet hours and puts it off, and it is cancelled. */
  lemma SecondHalf(cfg: Config, w5: World) returns (tail: seq<World>)
    requires cfg == Config(QUIET, 1) && w5 == Plain(HOUR, Claim(NewRow(), 0), map[1 := Stalled()])
    ensures |tail| == 4
    ensures Do(cfg, w5, ClaimIt(2, 1)) == Some(tail[0]) && Do(cfg, tail[0], ReadAudience(2, [])) == Some(tail[1])
    ensures Do(cfg, tail[1], Complete(2)) == Some(tail[2]) && Do(cfg, tail[2], CancelIt(1)) == Some(tail[3])
    ensures 1 in tail[3].rows && tail[3].rows[1].status == Cancelled && tail[3].rows[1].target.None?
    ensures tail[3].recips == map[] && 1 in tail[3].execs && tail[3].execs[1] == Stalled()
  {
    HoursOfTheRun();
    hide InQuiet, HourOf, DayStart, NextAllowed, Today;
    var w6 := Do(cfg, w5, ClaimIt(2, 1)).value;
    assert w6.execs[2] == Exec(1, HOUR, AtStart, [], 0, false, 0, 0, 0) && w6.execs[1] == Stalled();
    var w7 := Do(cfg, w6, ReadAudience(2, [])).value;
    assert w7.execs[2] == Exec(1, HOUR, AtHead, [], 0, true, HOUR, 0, 0) && w7.execs[1] == Stalled();
    var w8 := Do(cfg, w7, Complete(2)).value;
    assert w8.rows[1].status == Scheduled && w8.execs[1] == Stalled();
    var w9 := Do(cfg, w8, CancelIt(1)).value;
    tail := [w6, w7, w8, w9];
  }

  /** One more step of a run. */
  lemma Extend(cfg: Config, worlds: seq<World>, steps: seq<Step>, s: Step, w: World)
    requires Run(cfg, worlds, steps) && Do(cfg, worlds[|steps|], s) == Some(w)
    ensures Run(cfg, worlds + [w], steps + [s])
  {
    hide Do;
  }

  /** Without the assumption the promises fail: an execution that outlives its lease adds a recipient to a
      cancelled campaign and turns it into a sent one. */
  lemma LateExecutionBreaksCancel()
    returns (cfg: Config, worlds: seq<World>, steps: seq<Step>, m: nat, n: nat, c: Id, u: User)
    ensures Run(cfg, worlds, steps) && m < n < |worlds|
    ensures c in worlds[m].rows && worlds[m].rows[c].status == Cancelled && (c, u) !in worlds[m].recips
    ensures c in worlds[n].rows && worlds[n].rows[c].status == Sent && (c, u) in worlds[n].recips
  {
    cfg, c, u := Config(QUIET, 1), 1, 7;
    worlds, steps := FirstHalf(cfg, World(0, map[], map[], map[], [], {}, 0, 0));
    var tail := SecondHalf(cfg, worlds[|steps|]);
    var w9 := tail[3];
    LastUser(cfg, w9, 1, 7);
    hide Do, Run;
    var w10, w11, w12 :| Do(cfg, w9, AddRecipient(1)) == Some(w10) && Do(cfg, w10, NotifyUser(1)) == Some(w11)
                         && Do(cfg, w11, Complete(1)) == Some(w12)
                         && (1, 7) in w12.recips && 1 in w12.rows && w12.rows[1].status == Sent;
    worlds, steps := Extended(cfg, worlds, steps, ClaimIt(2, 1), tail[0]);
    worlds, steps := Extended(cfg, worlds, steps, ReadAudience(2, []), tail[1]);
    worlds, steps := Extended(cfg, worlds, steps, Complete(2), tail[2]);
    worlds, steps := Extended(cfg, worlds, steps, CancelIt(1), tail[3]);
    m := |steps|;
    worlds, steps := Extended(cfg, worlds, steps, AddRecipient(1), w10);
    worlds, steps := Extended(cfg, worlds, steps, NotifyUser(1), w11);
    worlds, steps := Extended(cfg, worlds, steps, Complete(1), w12);
    n := |steps|;
  }

  lemma Extended(cfg: Config, worlds: seq<World>, steps: seq<Step>, s: Step, w: World)
    returns (worlds': seq<World>, steps': seq<Step>)
    requires Run(cfg, worlds, steps) && |worlds| == |steps| + 1 && Do(cfg, worlds[|steps|], s) == Some(w)
    ensures Run(cfg, worlds', steps') && worlds' == worlds + [w] && steps' == steps + [s]
  {
    worlds', steps' := worlds + [w], steps + [s];
    Extend(cfg, worlds, steps, s, w);
  }
}
