/** What the final statement of an execution writes, whatever interleaves with it: the counters are the numbers of
    what the execution did (backend/internal/campaigns/send.go). */
module CampaignCounts {
  import opened Common
  import opened Quiet
  import opened Campaigns
  import opened CampaignProtocol

  /** The first step after the last claim by p among the first n steps. */
  function SinceClaim(steps: seq<Step>, p: Pid, n: nat): (m: nat)
    requires n <= |steps|
    ensures m <= n
  {
    if n == 0 then 0
    else if steps[n - 1].ClaimIt? && steps[n - 1].p == p then n
    else SinceClaim(steps, p, n - 1)
  }

  /** Step k is a Notify of p. */
  predicate Notifies(steps: seq<Step>, p: Pid, k: nat)
    requires k < |steps|
  {
    steps[k] == NotifyUser(p)
  }

  /** Step k passes a user by: in quiet hours, or at the cap. */
  predicate PassesBy(cfg: Config, worlds: seq<World>, steps: seq<Step>, p: Pid, k: nat)
    requires k < |steps| && |worlds| == |steps| + 1
  {
    || steps[k] == Defer(p)
    || (steps[k] == CheckCap(p) && p in worlds[k].execs
        && var e := worlds[k].execs[p];
           e.i < |e.ids| && AtCap(worlds[k].recips, e.ids[e.i], cfg.cap, worlds[k].now))
  }

  /** The notifications of the execution that p is at. */
  function Told(steps: seq<Step>, p: Pid, n: nat): set<nat>
    requires n <= |steps|
  {
    set k: nat | SinceClaim(steps, p, n) <= k < n && Notifies(steps, p, k)
  }

  /** The users it has passed by. */
  function PassedBy(cfg: Config, worlds: seq<World>, steps: seq<Step>, p: Pid, n: nat): set<nat>
    requires n <= |steps| && |worlds| == |steps| + 1
  {
    set k: nat | SinceClaim(steps, p, n) <= k < n && PassesBy(cfg, worlds, steps, p, k)
  }

  /** The audience was read at step k, and that was when quiet hours were asked for. */
  predicate ReadAtStep(cfg: Config, worlds: seq<World>, steps: seq<Step>, p: Pid, e: Exec, k: nat)
    requires |worlds| == |steps| + 1
  {
    && k < |steps| && steps[k] == ReadAudience(p, e.ids)
    && e.readAt == worlds[k].now && e.byQuiet == InQuiet(cfg.quiet, worlds[k].now)
  }

  /** The executor's counters and what it read. */
  ghost predicate CountsRight(cfg: Config, worlds: seq<World>, steps: seq<Step>, p: Pid, n: nat)
    requires n <= |steps| && |worlds| == |steps| + 1
  {
    p in worlds[n].execs ==>
      var e := worlds[n].execs[p];
      && e.inbox == |Told(steps, p, n)| && e.deferred == |PassedBy(cfg, worlds, steps, p, n)|
      && (!e.pc.AtStart? ==>
            exists k :: SinceClaim(steps, p, n) <= k < n && ReadAtStep(cfg, worlds, steps, p, e, k))
  }

  /** The executor a step is of. */
  function Actor(s: Step): Option<Pid> {
    match s
    case Tick(_) => None
    case Create(_, _, _) => None
    case CancelIt(_) => None
    case ClaimIt(p, _) => Some(p)
    case Refuse(p) => Some(p)
    case ReadAudience(p, _) => Some(p)
    case Defer(p) => Some(p)
    case CheckCap(p) => Some(p)
    case SkipCap(p) => Some(p)
    case AddRecipient(p) => Some(p)
    case LoseInsert(p, _) => Some(p)
    case NotifyUser(p) => Some(p)
    case MarkTold(p) => Some(p)
    case SkipMark(p) => Some(p)
    case Complete(p) => Some(p)
    case GiveUp(p) => Some(p)
    case Crash(p) => Some(p)
  }

  /** The steps of others leave an executor alone. */
  lemma OthersLeave(cfg: Config, w: World, s: Step, w': World, p: Pid)
    requires Do(cfg, w, s) == Some(w') && Actor(s) != Some(p)
    ensures p in w'.execs <==> p in w.execs
    ensures p in w.execs ==> w'.execs[p] == w.execs[p]
  {
    hide InQuiet, Today, NextAllowed, Distinct;
  }

  /** What an executor's own step does to it. */
  lemma OwnStep(cfg: Config, w: World, s: Step, w': World, p: Pid)
    requires Do(cfg, w, s) == Some(w') && Actor(s) == Some(p) && p in w'.execs && !s.ClaimIt?
    ensures p in w.execs
    ensures var e, e' := w.execs[p], w'.execs[p];
            && e'.inbox == e.inbox + One(s.NotifyUser?)
            && e'.deferred ==
                 e.deferred + One(s.Defer?
                                  || (s.CheckCap? && e.i < |e.ids| && AtCap(w.recips, e.ids[e.i], cfg.cap, w.now)))
            && (if s.ReadAudience? then
                  e'.ids == s.ids && e'.readAt == w.now && e'.byQuiet == InQuiet(cfg.quiet, w.now)
                else
                  !e.pc.AtStart? && e'.ids == e.ids && e'.readAt == e.readAt && e'.byQuiet == e.byQuiet)
  {
    hide InQuiet, NextAllowed, Distinct, DayStart;
    if s.CheckCap? {
      var e := w.execs[p];
      CapMeans(w.recips, e.ids[e.i], cfg.cap, w.now);
    }
  }

  lemma CapMeans(recips: Recipients, u: User, cap: int, now: int)
    ensures |Today(recips, u, now)| < cap <==> !AtCap(recips, u, cap, now)
  {
    ReachedIsChosen(recips, 0, u, cap, now);
  }

  lemma Claimed(cfg: Config, w: World, s: Step, w': World)
    requires Do(cfg, w, s) == Some(w') && s.ClaimIt?
    ensures s.p in w'.execs && w'.execs[s.p].inbox == 0 && w'.execs[s.p].deferred == 0 && w'.execs[s.p].pc.AtStart?
  {
  }

  /** One step more in the history of an executor. */
  lemma HistoryGrows(cfg: Config, worlds: seq<World>, steps: seq<Step>, p: Pid, n: nat)
    requires n < |steps| && |worlds| == |steps| + 1 && !(steps[n].ClaimIt? && steps[n].p == p)
    ensures |Told(steps, p, n + 1)| == |Told(steps, p, n)| + One(Notifies(steps, p, n))
    ensures |PassedBy(cfg, worlds, steps, p, n + 1)| ==
              |PassedBy(cfg, worlds, steps, p, n)| + One(PassesBy(cfg, worlds, steps, p, n))
    ensures SinceClaim(steps, p, n + 1) == SinceClaim(steps, p, n)
  {
    hide AtCap, PassesBy, Notifies;
    var told, told' := Told(steps, p, n), Told(steps, p, n + 1);
    assert told' == if Notifies(steps, p, n) then told + {n} else told;
    var passed, passed' := PassedBy(cfg, worlds, steps, p, n), PassedBy(cfg, worlds, steps, p, n + 1);
    assert passed' == if PassesBy(cfg, worlds, steps, p, n) then passed + {n} else passed;
  }

  lemma NewHistory(cfg: Config, worlds: seq<World>, steps: seq<Step>, p: Pid, n: nat)
    requires n < |steps| && |worlds| == |steps| + 1 && steps[n].ClaimIt? && steps[n].p == p
    ensures Told(steps, p, n + 1) == {} && PassedBy(cfg, worlds, steps, p, n + 1) == {}
  {
    hide AtCap;
  }

  lemma CountsStep(cfg: Config, worlds: seq<World>, steps: seq<Step>, p: Pid, n: nat)
    requires n < |steps| && |worlds| == |steps| + 1 && Do(cfg, worlds[n], steps[n]) == Some(worlds[n + 1])
    requires CountsRight(cfg, worlds, steps, p, n)
    ensures CountsRight(cfg, worlds, steps, p, n + 1)
  {
    hide Do, AtCap, InQuiet, Told, PassedBy;
    var w, s, w' := worlds[n], steps[n], worlds[n + 1];
    if p in w'.execs {
      if s.ClaimIt? && s.p == p {
        Claimed(cfg, w, s, w');
        NewHistory(cfg, worlds, steps, p, n);
      } else {
        HistoryGrows(cfg, worlds, steps, p, n);
        if Actor(s) == Some(p) {
          OwnStep(cfg, w, s, w', p);
          if s.ReadAudience? {
            assert ReadAtStep(cfg, worlds, steps, p, w'.execs[p], n);
          } else {
            var k :| SinceClaim(steps, p, n) <= k < n && ReadAtStep(cfg, worlds, steps, p, w.execs[p], k);
            assert ReadAtStep(cfg, worlds, steps, p, w'.execs[p], k);
          }
        } else {
          OthersLeave(cfg, w, s, w', p);
        }
      }
    }
  }

  lemma {:induction false} RunCounts(cfg: Config, worlds: seq<World>, steps: seq<Step>, p: Pid, n: nat)
    requires Run(cfg, worlds, steps) && n < |worlds|
    ensures CountsRight(cfg, worlds, steps, p, n)
  {
    hide Do;
    if n > 0 {
      RunCounts(cfg, worlds, steps, p, n - 1);
      CountsStep(cfg, worlds, steps, p, n - 1);
    }
  }

  /** An execution that read its audience in quiet hours adds and notifies nobody, and passes everyone by. */
  predicate QuietRight(w: World) {
    forall p :: p in w.execs && w.execs[p].byQuiet ==>
      var e := w.execs[p];
      e.pc.AtHead? && e.i <= |e.ids| && e.inbox == 0 && e.deferred == e.i
  }

  lemma QuietStep(cfg: Config, w: World, s: Step, w': World)
    requires QuietRight(w) && FreshReaders(w) && Do(cfg, w, s) == Some(w')
    ensures QuietRight(w') && FreshReaders(w')
  {
    hide InQuiet, Today, NextAllowed, Distinct;
    forall p | p in w'.execs
      ensures w'.execs[p].byQuiet ==>
                var e := w'.execs[p];
                e.pc.AtHead? && e.i <= |e.ids| && e.inbox == 0 && e.deferred == e.i
      ensures w'.execs[p].pc.AtStart? ==>
                w'.execs[p].i == 0 && w'.execs[p].inbox == 0 && w'.execs[p].deferred == 0
    {
      if Actor(s) != Some(p) {
        OthersLeave(cfg, w, s, w', p);
      }
    }
  }

  /** An executor that has not read its audience has counted nothing. */
  predicate FreshReaders(w: World) {
    forall p :: p in w.execs && w.execs[p].pc.AtStart? ==>
      w.execs[p].i == 0 && w.execs[p].inbox == 0 && w.execs[p].deferred == 0
  }

  lemma {:induction false} RunIsQuiet(cfg: Config, worlds: seq<World>, steps: seq<Step>, n: nat)
    requires Run(cfg, worlds, steps) && n < |worlds|
    ensures QuietRight(worlds[n]) && FreshReaders(worlds[n])
  {
    hide Do;
    if n > 0 {
      RunIsQuiet(cfg, worlds, steps, n - 1);
      hide QuietRight, FreshReaders;
      QuietStep(cfg, worlds[n - 1], steps[n - 1], worlds[n]);
    }
  }

  /** The final statement of an execution, in every run: everyone of the audience is counted as targeted, those it
      notified as reached and those it passed by as deferred; and the campaign is sent, unless it read its audience
      in quiet hours: then it has notified nobody and passed everyone by, and is put off to the first instant outside
      them after that. */
  lemma CompletedRow(cfg: Config, worlds: seq<World>, steps: seq<Step>, n: nat)
    requires Run(cfg, worlds, steps) && n < |steps| && steps[n].Complete?
    ensures var p := steps[n].p;
            && p in worlds[n].execs && p !in worlds[n + 1].execs
            && var e := worlds[n].execs[p];
               && e.c in worlds[n].rows && worlds[n + 1].rows.Keys == worlds[n].rows.Keys
               && (forall d :: d in worlds[n].rows && d != e.c ==> worlds[n + 1].rows[d] == worlds[n].rows[d])
               && exists k ::
                    && SinceClaim(steps, p, n) <= k < n && ReadAtStep(cfg, worlds, steps, p, e, k)
                    && FinalRow(cfg, worlds[n].rows[e.c], worlds[n + 1].rows[e.c], |e.ids|, |Told(steps, p, n)|,
                                |PassedBy(cfg, worlds, steps, p, n)|, worlds[k].now)
  {
    RunIsQuiet(cfg, worlds, steps, n);
    hide Run, Told, PassedBy, InQuiet, NextAllowed, AtCap;
    var p := steps[n].p;
    StepOfRun(cfg, worlds, steps, n);
    FinalStep(cfg, worlds[n], p, worlds[n + 1]);
    RunCounts(cfg, worlds, steps, p, n);
    var e := worlds[n].execs[p];
    var k :| SinceClaim(steps, p, n) <= k < n && ReadAtStep(cfg, worlds, steps, p, e, k);
    CompletedIsFinal(cfg, worlds[n].rows[e.c], e);
  }

  lemma StepOfRun(cfg: Config, worlds: seq<World>, steps: seq<Step>, n: nat)
    requires Run(cfg, worlds, steps) && n < |steps|
    ensures |worlds| == |steps| + 1 && Do(cfg, worlds[n], steps[n]) == Some(worlds[n + 1])
  {
    hide Do;
  }

  lemma FinalStep(cfg: Config, w: World, p: Pid, w': World)
    requires Do(cfg, w, Complete(p)) == Some(w')
    ensures p in w.execs && p !in w'.execs && w.execs[p].c in w.rows && w.execs[p].pc.AtHead?
    ensures w.execs[p].i == |w.execs[p].ids|
    ensures w'.rows == w.rows[w.execs[p].c := Completed(cfg, w.rows[w.execs[p].c], w.execs[p])]
  {
    hide Completed;
  }

  /** A row after the final statement. */
  ghost predicate FinalRow(
    cfg: Config, was: Row, after: Row, audience: nat, told: nat, passed: nat, readAt: int)
  {
    && after.claimedAt == None && after.target == was.target && after.targeted == audience && after.deferred == passed
    && if InQuiet(cfg.quiet, readAt) then
         && told == 0 && passed == audience && after.status == Scheduled && after.inbox == was.inbox
         && after.scheduledAt.Some?
         && (HoursOfDay(cfg.quiet) ==> FirstAllowed(cfg.quiet, readAt, after.scheduledAt.value))
       else after.status == Sent && after.inbox == told && after.scheduledAt == was.scheduledAt
  }

  lemma CompletedIsFinal(cfg: Config, r: Row, e: Exec)
    requires e.byQuiet == InQuiet(cfg.quiet, e.readAt) && (e.byQuiet ==> e.inbox == 0 && e.deferred == |e.ids|)
    ensures FinalRow(cfg, r, Completed(cfg, r, e), |e.ids|, e.inbox, e.deferred, e.readAt)
  {
    hide NextAllowed, InQuiet, FirstAllowed;
    if e.byQuiet {
      PutOffRow(r, |e.ids|, cfg.quiet, e.readAt);
    }
  }

  // ----- scheduled times -----

  /** A scheduled campaign has a time, and a draft has none. */
  predicate TimesRight(w: World) {
    forall c :: c in w.rows ==>
      && (w.rows[c].status == Scheduled ==> w.rows[c].scheduledAt.Some?)
      && (w.rows[c].status == Draft ==> w.rows[c].scheduledAt == None)
  }

  lemma TimesStep(cfg: Config, w: World, s: Step, w': World)
    requires TimesRight(w) && Do(cfg, w, s) == Some(w')
    ensures TimesRight(w')
  {
    hide InQuiet, Today, NextAllowed, Distinct;
  }

  /** In every run. */
  lemma {:induction false} RunKeepsTimes(cfg: Config, worlds: seq<World>, steps: seq<Step>, n: nat)
    requires Run(cfg, worlds, steps) && n < |worlds|
    ensures TimesRight(worlds[n])
  {
    hide Do;
    if n > 0 {
      RunKeepsTimes(cfg, worlds, steps, n - 1);
      TimesStep(cfg, worlds[n - 1], steps[n - 1], worlds[n]);
    }
  }

  /** A campaign is created once, as a draft or for a time to come. */
  lemma CreatedIsToCome(cfg: Config, w: World, c: Id, at: Option<int>, target: Option<Target>)
    ensures var w' := Do(cfg, w, Create(c, at, target));
            && (w'.Some? <==> c !in w.rows && (at.Some? ==> at.value > w.now))
            && (w'.Some? ==>
                  && w'.value.rows.Keys == w.rows.Keys + {c}
                  && (forall d :: d in w.rows ==> w'.value.rows[d] == w.rows[d])
                  && var r := w'.value.rows[c];
                     && r.status == (if at.Some? then Scheduled else Draft) && r.scheduledAt == at
                     && r.target == target && r.claimedAt == None
                     && r.targeted == 0 && r.inbox == 0 && r.deferred == 0)
  {
  }
}
