/** Many workers on the same campaigns: every interleaving of their statements, with crashes, expired leases,
    repeated sends and cancellations (backend/internal/campaigns/send.go and service.go). One step is one
    SQL statement or one Notify. */
module CampaignProtocol {
  import opened Common
  import opened Quiet
  import opened Campaigns

  type Pid = int

  /** Where an executor stands: it has claimed the campaign; it is at the head of the loop over its audience;
      it has passed the cap check; it has added the recipient; it has notified. */
  datatype Pc = AtStart | AtHead | AtInsert | AtNotify | AtMark

  /** An execution. `since` is its claim; `byQuiet` says that it found quiet hours when it began, at `readAt`. */
  datatype Exec = Exec(
    c: Id, since: int, pc: Pc, ids: seq<User>, i: nat, byQuiet: bool, readAt: int, inbox: nat, deferred: nat)
  {
    /** The recipient the executor is at. */
    function Key(): (Id, User)
      requires i < |ids|
    {
      (c, ids[i])
    }
  }

  datatype Config = Config(quiet: QuietHours, cap: int)

  datatype World = World(
    now: int, rows: Rows, recips: Recipients, execs: map<Pid, Exec>, log: seq<(Id, User)>,
    marked: set<(User, Target)>, crashes: nat, lost: nat)

  datatype Step =
    | Tick(to: int)
    | Create(c: Id, scheduledAt: Option<int>, target: Option<Target>)
    | CancelIt(c: Id)
    | ClaimIt(p: Pid, c: Id)
    /** The target is not serviceable, the offer is not live, or the audience cannot be read. */
    | Refuse(p: Pid)
    | ReadAudience(p: Pid, ids: seq<User>)
    | Defer(p: Pid)
    | CheckCap(p: Pid)
    /** The cap cannot be read, and is passed over. */
    | SkipCap(p: Pid)
    | AddRecipient(p: Pid)
    /** The insert reports an error, though it may have been stored. */
    | LoseInsert(p: Pid, stored: bool)
    | NotifyUser(p: Pid)
    | MarkTold(p: Pid)
    | SkipMark(p: Pid)
    | Complete(p: Pid)
    /** The final statement fails; the row stays as it is. */
    | GiveUp(p: Pid)
    | Crash(p: Pid)

  function Without(execs: map<Pid, Exec>, p: Pid): map<Pid, Exec> {
    map q | q in execs && q != p :: execs[q]
  }

  /** The executor goes to the next user. */
  function Onward(w: World, p: Pid, e: Exec): World {
    w.(execs := w.execs[p := e.(pc := AtHead, i := e.i + 1)])
  }

  /** One step; none when it is not possible. */
  function Do(cfg: Config, w: World, s: Step): Option<World> {
    match s
    case Tick(to) => if to >= w.now then Some(w.(now := to)) else None
    case Create(c, at, target) =>
      if c in w.rows || (at.Some? && at.value <= w.now) then None
      else Some(w.(rows := w.rows[c := Row(if at.Some? then Scheduled else Draft, None, at, target, 0, 0, 0)]))
    case CancelIt(c) =>
      if c in w.rows && Cancellable(w.rows[c].status) then Some(w.(rows := w.rows[c := Cancel(w.rows[c])])) else None
    case ClaimIt(p, c) =>
      if p !in w.execs && c in w.rows && Claimable(w.rows[c], w.now) then
        Some(w.(rows := w.rows[c := Claim(w.rows[c], w.now)],
                execs := w.execs[p := Exec(c, w.now, AtStart, [], 0, false, 0, 0, 0)]))
      else None
    case Crash(p) => if p in w.execs then Some(w.(execs := Without(w.execs, p), crashes := w.crashes + 1)) else None
    case Refuse(p) => if p in w.execs then DoExec(cfg, w, p, w.execs[p], s) else None
    case ReadAudience(p, _) => if p in w.execs then DoExec(cfg, w, p, w.execs[p], s) else None
    case Defer(p) => if p in w.execs then DoExec(cfg, w, p, w.execs[p], s) else None
    case CheckCap(p) => if p in w.execs then DoExec(cfg, w, p, w.execs[p], s) else None
    case SkipCap(p) => if p in w.execs then DoExec(cfg, w, p, w.execs[p], s) else None
    case AddRecipient(p) => if p in w.execs then DoExec(cfg, w, p, w.execs[p], s) else None
    case LoseInsert(p, _) => if p in w.execs then DoExec(cfg, w, p, w.execs[p], s) else None
    case NotifyUser(p) => if p in w.execs then DoExec(cfg, w, p, w.execs[p], s) else None
    case MarkTold(p) => if p in w.execs then DoExec(cfg, w, p, w.execs[p], s) else None
    case SkipMark(p) => if p in w.execs then DoExec(cfg, w, p, w.execs[p], s) else None
    case Complete(p) => if p in w.execs then DoExec(cfg, w, p, w.execs[p], s) else None
    case GiveUp(p) => if p in w.execs then DoExec(cfg, w, p, w.execs[p], s) else None
  }

  /** What the final statement of an executor writes. */
  function Completed(cfg: Config, r: Row, e: Exec): Row {
    if e.byQuiet && e.inbox == 0 then Reschedule(r, NextAllowed(cfg.quiet, e.readAt), |e.ids|, e.deferred)
    else Finish(r, |e.ids|, e.inbox, e.deferred)
  }

  /** A step of the executor p. */
  function DoExec(cfg: Config, w: World, p: Pid, e: Exec, s: Step): Option<World> {
    var atUser := e.i < |e.ids|;
    match s
    case Refuse(_) =>
      if e.pc.AtStart? && e.c in w.rows then
        Some(w.(rows := w.rows[e.c := Fail(w.rows[e.c])], execs := Without(w.execs, p)))
      else None
    case ReadAudience(_, ids) =>
      if e.pc.AtStart? && Distinct(ids) then
        var reader := e.(pc := AtHead, ids := ids, byQuiet := InQuiet(cfg.quiet, w.now), readAt := w.now);
        Some(w.(execs := w.execs[p := reader]))
      else None
    case Defer(_) =>
      if e.pc.AtHead? && atUser && e.byQuiet then Some(Onward(w, p, e.(deferred := e.deferred + 1))) else None
    case CheckCap(_) =>
      if e.pc.AtHead? && atUser && !e.byQuiet then
        if |Today(w.recips, e.ids[e.i], w.now)| < cfg.cap then Some(w.(execs := w.execs[p := e.(pc := AtInsert)]))
        else Some(Onward(w, p, e.(deferred := e.deferred + 1)))
      else None
    case SkipCap(_) =>
      if e.pc.AtHead? && atUser && !e.byQuiet then Some(w.(execs := w.execs[p := e.(pc := AtInsert)])) else None
    case AddRecipient(_) =>
      if e.pc.AtInsert? && atUser then
        if e.Key() in w.recips then Some(Onward(w, p, e))
        else Some(w.(recips := w.recips[e.Key() := w.now], execs := w.execs[p := e.(pc := AtNotify)]))
      else None
    case LoseInsert(_, stored) =>
      if e.pc.AtInsert? && atUser then
        if stored && e.Key() !in w.recips then
          Some(Onward(w, p, e).(recips := w.recips[e.Key() := w.now], lost := w.lost + 1))
        else Some(Onward(w, p, e))
      else None
    case NotifyUser(_) =>
      if e.pc.AtNotify? && atUser && e.c in w.rows then
        var after := e.(inbox := e.inbox + 1);
        if w.rows[e.c].target.Some? then Some(w.(log := w.log + [e.Key()], execs := w.execs[p := after.(pc := AtMark)]))
        else Some(Onward(w, p, after).(log := w.log + [e.Key()]))
      else None
    case MarkTold(_) =>
      if e.pc.AtMark? && atUser && e.c in w.rows && w.rows[e.c].target.Some? then
        Some(Onward(w, p, e).(marked := w.marked + {(e.ids[e.i], w.rows[e.c].target.value)}))
      else None
    case SkipMark(_) => if e.pc.AtMark? && atUser then Some(Onward(w, p, e)) else None
    case Complete(_) =>
      if e.pc.AtHead? && e.i == |e.ids| && e.c in w.rows then
        Some(w.(rows := w.rows[e.c := Completed(cfg, w.rows[e.c], e)], execs := Without(w.execs, p)))
      else None
    case GiveUp(_) =>
      if e.pc.AtHead? && e.i == |e.ids| then Some(w.(execs := Without(w.execs, p))) else None
    case _ => None
  }

  /** A run: worlds joined by steps, from one without rows. */
  ghost predicate Run(cfg: Config, worlds: seq<World>, steps: seq<Step>) {
    && |worlds| == |steps| + 1
    && worlds[0] == World(worlds[0].now, map[], map[], map[], [], {}, 0, 0)
    && forall i :: 0 <= i < |steps| ==> Do(cfg, worlds[i], steps[i]) == Some(worlds[i + 1])
  }

  // ---------------------------------------------------------------------------------------
  // Each user is notified at most once per campaign
  // ---------------------------------------------------------------------------------------

  /** An executor's position agrees with the tables. */
  ghost predicate Placed(w: World, e: Exec) {
    && e.c in w.rows && e.i <= |e.ids| && (!e.pc.AtStart? && !e.pc.AtHead? ==> e.i < |e.ids|)
    && (e.pc.AtStart? ==> e.ids == [] && e.i == 0)
    && (e.pc.AtNotify? ==> e.Key() in w.recips && e.Key() !in w.log)
    && (e.pc.AtMark? ==> e.Key() in w.log && w.rows[e.c].target.Some?)
  }

  ghost predicate AllPlaced(w: World) {
    forall p :: p in w.execs ==> Placed(w, w.execs[p])
  }

  /** No two executors are about to notify the same user of the same campaign. */
  ghost predicate NotifiersApart(execs: map<Pid, Exec>) {
    forall p, q :: p in execs && q in execs && p != q && Notifying(execs[p]) && Notifying(execs[q]) ==>
      execs[p].Key() != execs[q].Key()
  }

  predicate Notifying(e: Exec) {
    e.pc.AtNotify? && e.i < |e.ids|
  }

  /** The log has no repetition, and speaks of recipients only. */
  ghost predicate LogOk(log: seq<(Id, User)>, recips: Recipients) {
    && (forall k :: k in log ==> k in recips)
    && (forall i, j :: 0 <= i < j < |log| ==> log[i] != log[j])
  }

  ghost predicate RecipsOk(recips: Recipients, rows: Rows) {
    forall k :: k in recips ==> k.0 in rows
  }

  ghost predicate Fence(w: World) {
    AllPlaced(w) && NotifiersApart(w.execs) && LogOk(w.log, w.recips) && RecipsOk(w.recips, w.rows)
  }

  /** A subscription is marked only after a Notify of a campaign for its target. */
  ghost predicate MarksFollow(w: World) {
    forall m :: m in w.marked ==>
      exists c :: c in w.rows && (c, m.0) in w.log && w.rows[c].target == Some(m.1)
  }

  /** No campaign is lost and no audience changes. */
  ghost predicate RowsGrow(before: Rows, after: Rows) {
    forall c :: c in before ==> c in after && after[c].target == before[c].target
  }

  lemma RecipsStayOk(recips: Recipients, before: Rows, after: Rows)
    requires RecipsOk(recips, before) && RowsGrow(before, after)
    ensures RecipsOk(recips, after)
  {
    forall c: Id, u: User | (c, u) in recips
      ensures c in after
    {
      assert (c, u).0 in before;
    }
    forall k | k in recips
      ensures k.0 in after
    {
      assert (k.0, k.1) in recips;
    }
  }

  /** An executor stays placed while the tables stay and the rows grow. */
  lemma PlacedStays(w: World, w': World, e: Exec)
    requires Placed(w, e) && RowsGrow(w.rows, w'.rows) && w'.recips == w.recips && w'.log == w.log
    ensures Placed(w', e)
  {
  }

  /** An executor that is not about to notify moves, while the tables stay. */
  lemma FenceMove(w: World, w': World, p: Pid, e': Exec)
    requires Fence(w) && w'.execs == w.execs[p := e'] && w'.recips == w.recips && w'.log == w.log
    requires RowsGrow(w.rows, w'.rows) && Placed(w', e') && !e'.pc.AtNotify?
    ensures Fence(w')
  {
    hide Placed, LogOk, RecipsOk, RowsGrow;
    forall q | q in w'.execs
      ensures Placed(w', w'.execs[q])
    {
      if q != p {
        PlacedStays(w, w', w.execs[q]);
      }
    }
    RecipsStayOk(w.recips, w.rows, w'.rows);
  }

  lemma FenceRemove(w: World, w': World, p: Pid)
    requires Fence(w) && w'.execs == Without(w.execs, p) && w'.recips == w.recips && w'.log == w.log
    requires RowsGrow(w.rows, w'.rows)
    ensures Fence(w')
  {
    hide Placed, LogOk, RecipsOk, RowsGrow;
    forall q | q in w'.execs
      ensures Placed(w', w'.execs[q])
    {
      PlacedStays(w, w', w.execs[q]);
    }
    RecipsStayOk(w.recips, w.rows, w'.rows);
  }

  lemma FenceRows(w: World, w': World)
    requires Fence(w) && w'.execs == w.execs && w'.recips == w.recips && w'.log == w.log
    requires RowsGrow(w.rows, w'.rows)
    ensures Fence(w')
  {
    hide Placed, LogOk, RecipsOk, RowsGrow, NotifiersApart;
    forall q | q in w'.execs
      ensures Placed(w', w'.execs[q])
    {
      PlacedStays(w, w', w.execs[q]);
    }
    RecipsStayOk(w.recips, w.rows, w'.rows);
  }

  lemma FenceShared(cfg: Config, w: World, s: Step, w': World)
    requires Fence(w) && Do(cfg, w, s) == Some(w')
    requires s.Tick? || s.Create? || s.CancelIt? || s.ClaimIt? || s.Crash?
    ensures Fence(w')
  {
    hide DoExec, Claimable, Fence;
    if s.ClaimIt? {
      FenceMove(w, w', s.p, w'.execs[s.p]);
    } else if s.Crash? {
      FenceRemove(w, w', s.p);
    } else {
      FenceRows(w, w');
    }
  }

  /** The recipient is added, and the executor goes to notify it or, on an error, onward. */
  lemma FenceAdd(w: World, p: Pid, k: (Id, User), e': Exec, w': World)
    requires Fence(w) && k !in w.recips && k.0 in w.rows && Placed(w', e')
    requires w'.recips == w.recips[k := w.now] && w'.log == w.log && w'.rows == w.rows
    requires w'.execs == w.execs[p := e'] && (Notifying(e') ==> e'.Key() == k)
    ensures Fence(w')
  {
    assert k !in w.log;
    forall q | q in w'.execs
      ensures Placed(w', w'.execs[q])
      ensures q != p && Notifying(w'.execs[q]) ==> w'.execs[q].Key() != k
    {
      if q != p {
        assert Placed(w, w.execs[q]);
      }
    }
  }

  /** The user is notified. */
  lemma FenceNotify(w: World, p: Pid, e': Exec, w': World)
    requires Fence(w) && p in w.execs && Notifying(w.execs[p]) && Placed(w', e') && !e'.pc.AtNotify?
    requires w'.log == w.log + [w.execs[p].Key()] && w'.recips == w.recips && w'.rows == w.rows
    requires w'.execs == w.execs[p := e']
    ensures Fence(w')
  {
    var k := w.execs[p].Key();
    assert Placed(w, w.execs[p]);
    forall q | q in w'.execs && q != p
      ensures Placed(w', w'.execs[q])
    {
      assert Placed(w, w.execs[q]);
    }
  }

  lemma FenceStep(cfg: Config, w: World, s: Step, w': World)
    requires Fence(w) && Do(cfg, w, s) == Some(w')
    ensures Fence(w')
  {
    if s.Tick? || s.Create? || s.CancelIt? || s.ClaimIt? || s.Crash? {
      FenceShared(cfg, w, s, w');
    } else {
      FenceExec(cfg, w, s.p, s, w');
    }
  }

  /** An executor ends, with or without a final statement. */
  lemma FenceEnd(cfg: Config, w: World, p: Pid, s: Step, w': World)
    requires Fence(w) && p in w.execs && DoExec(cfg, w, p, w.execs[p], s) == Some(w')
    requires s.Refuse? || s.Complete? || s.GiveUp?
    ensures Fence(w')
  {
    hide NextAllowed, Fence;
    FenceRemove(w, w', p);
  }

  lemma FenceTell(cfg: Config, w: World, p: Pid, s: Step, w': World)
    requires Fence(w) && p in w.execs && DoExec(cfg, w, p, w.execs[p], s) == Some(w') && s.NotifyUser?
    ensures Fence(w')
  {
    assert Placed(w, w.execs[p]);
    hide Fence;
    FenceNotify(w, p, w'.execs[p], w');
  }

  lemma FenceInsert(cfg: Config, w: World, p: Pid, s: Step, w': World)
    requires Fence(w) && p in w.execs && DoExec(cfg, w, p, w.execs[p], s) == Some(w') &&
        (s.AddRecipient? || s.LoseInsert?)
    ensures Fence(w')
  {
    var e := w.execs[p];
    assert Placed(w, e);
    hide Fence;
    if (s.AddRecipient? || s.stored) && e.Key() !in w.recips {
      FenceAdd(w, p, e.Key(), w'.execs[p], w');
    } else {
      FenceMove(w, w', p, w'.execs[p]);
    }
  }

  lemma FenceAdvance(cfg: Config, w: World, p: Pid, s: Step, w': World)
    requires Fence(w) && p in w.execs && DoExec(cfg, w, p, w.execs[p], s) == Some(w')
    requires s.ReadAudience? || s.Defer? || s.CheckCap? || s.SkipCap? || s.MarkTold? || s.SkipMark?
    ensures Fence(w')
  {
    assert Placed(w, w.execs[p]);
    hide InQuiet, Today, Fence;
    FenceMove(w, w', p, w'.execs[p]);
  }

  lemma FenceExec(cfg: Config, w: World, p: Pid, s: Step, w': World)
    requires Fence(w) && p in w.execs && DoExec(cfg, w, p, w.execs[p], s) == Some(w')
    ensures Fence(w')
  {
    hide Fence;
    match s
    case Refuse(_) => FenceEnd(cfg, w, p, s, w');
    case Complete(_) => FenceEnd(cfg, w, p, s, w');
    case GiveUp(_) => FenceEnd(cfg, w, p, s, w');
    case NotifyUser(_) => FenceTell(cfg, w, p, s, w');
    case AddRecipient(_) => FenceInsert(cfg, w, p, s, w');
    case LoseInsert(_, _) => FenceInsert(cfg, w, p, s, w');
    case _ => FenceAdvance(cfg, w, p, s, w');
  }

  lemma MarksStep(cfg: Config, w: World, s: Step, w': World)
    requires Fence(w) && MarksFollow(w) && Do(cfg, w, s) == Some(w')
    ensures MarksFollow(w')
  {
    if s.Tick? || s.Create? || s.CancelIt? || s.ClaimIt? || s.Crash? {
      hide DoExec, Fence;
    } else {
      assert Placed(w, w.execs[s.p]);
      hide DoExec, Fence, MarksFollow, Placed;
    }
  }

  // ----- the gap between recipients and notified users -----

  /** The executors that have added a recipient and not notified it yet. */
  function InFlight(execs: map<Pid, Exec>): set<Pid> {
    set p | p in execs && execs[p].pc.AtNotify?
  }

  /** Recipients that were not notified: one per crash or lost reply, beside those in flight. */
  ghost predicate GapOk(w: World) {
    |w.recips.Keys| <= |w.log| + |InFlight(w.execs)| + w.crashes + w.lost
  }

  function FlightOf(execs: map<Pid, Exec>, p: Pid): nat {
    One(p in execs && execs[p].pc.AtNotify?)
  }

  lemma FlightReplaced(execs: map<Pid, Exec>, p: Pid, e': Exec)
    ensures |InFlight(execs[p := e'])| == |InFlight(execs)| - FlightOf(execs, p) + One(e'.pc.AtNotify?)
  {
    var rest := InFlight(execs) - {p};
    assert InFlight(execs[p := e']) == if e'.pc.AtNotify? then rest + {p} else rest;
    assert InFlight(execs) == if FlightOf(execs, p) == 1 then rest + {p} else rest;
  }

  lemma FlightRemoved(execs: map<Pid, Exec>, p: Pid)
    ensures |InFlight(Without(execs, p))| == |InFlight(execs)| - FlightOf(execs, p)
  {
    var rest := InFlight(execs) - {p};
    assert InFlight(Without(execs, p)) == rest;
    assert InFlight(execs) == if FlightOf(execs, p) == 1 then rest + {p} else rest;
  }

  lemma OneMoreRecipient(recips: Recipients, k: (Id, User), now: int)
    requires k !in recips
    ensures |recips[k := now].Keys| == |recips.Keys| + 1
  {
    assert recips[k := now].Keys == recips.Keys + {k};
  }

  lemma GapExec(cfg: Config, w: World, p: Pid, s: Step, w': World)
    requires GapOk(w) && p in w.execs && DoExec(cfg, w, p, w.execs[p], s) == Some(w')
    ensures GapOk(w')
  {
    hide InQuiet, NextAllowed, Today, InFlight;
    var e := w.execs[p];
    if s.Refuse? || s.Complete? || s.GiveUp? {
      FlightRemoved(w.execs, p);
    } else {
      FlightReplaced(w.execs, p, w'.execs[p]);
      if (s.AddRecipient? || s.LoseInsert?) && e.Key() !in w.recips {
        OneMoreRecipient(w.recips, e.Key(), w.now);
      }
    }
  }

  lemma GapStep(cfg: Config, w: World, s: Step, w': World)
    requires GapOk(w) && Do(cfg, w, s) == Some(w')
    ensures GapOk(w')
  {
    hide InQuiet, NextAllowed, Today, Claimable, DoExec, InFlight;
    if s.Tick? || s.Create? || s.CancelIt? {
    } else if s.Crash? {
      FlightRemoved(w.execs, s.p);
    } else if s.ClaimIt? {
      FlightReplaced(w.execs, s.p, w'.execs[s.p]);
    } else {
      GapExec(cfg, w, s.p, s, w');
    }
  }

  /** Over every interleaving: nobody is notified twice of a campaign, everybody notified is a recipient, the
      recipients not notified are no more than the crashes, the lost replies and the inserts whose Notify is
      still to come, and a subscription is marked only after a Notify for its target. */
  lemma {:induction false} AtMostOnce(cfg: Config, worlds: seq<World>, steps: seq<Step>, n: nat)
    requires Run(cfg, worlds, steps) && n < |worlds|
    ensures Fence(worlds[n]) && MarksFollow(worlds[n]) && GapOk(worlds[n])
  {
    if n > 0 {
      AtMostOnce(cfg, worlds, steps, n - 1);
      var w, s, w' := worlds[n - 1], steps[n - 1], worlds[n];
      hide Fence, MarksFollow, GapOk, Do;
      FenceStep(cfg, w, s, w');
      MarksStep(cfg, w, s, w');
      GapStep(cfg, w, s, w');
    }
  }

  /** The same, read off the log. */
  lemma NotifiedOnce(cfg: Config, worlds: seq<World>, steps: seq<Step>, n: nat, i: nat, j: nat)
    requires Run(cfg, worlds, steps) && n < |worlds| && i < j < |worlds[n].log|
    ensures worlds[n].log[i] != worlds[n].log[j] && worlds[n].log[i] in worlds[n].recips
  {
    AtMostOnce(cfg, worlds, steps, n);
  }
}
