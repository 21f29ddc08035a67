/** The daily cap under concurrency (backend/internal/campaigns/send.go:123-152, 202-210). */
module CampaignCap {
  import opened Common
  import opened Quiet
  import opened Campaigns
  import opened CampaignProtocol

  /** No more than k executions at a time, and every cap check reads its count. */
  predicate Limited(k: nat, w: World, s: Step) {
    (s.ClaimIt? ==> |w.execs.Keys| < k) && !s.SkipCap?
  }

  ghost predicate LimitedRun(k: nat, cfg: Config, worlds: seq<World>, steps: seq<Step>) {
    Run(cfg, worlds, steps) && forall i :: 0 <= i < |steps| ==> Limited(k, worlds[i], steps[i])
  }

  /** The executors that have passed the cap check for the user and not inserted yet. */
  function Passed(execs: map<Pid, Exec>, u: User): set<Pid> {
    set p | p in execs && execs[p].pc.AtInsert? && execs[p].i < |execs[p].ids| && execs[p].ids[execs[p].i] == u
  }

  /** Today's recipients and those past the check stay within the bound, and nobody passes a cap of zero. */
  ghost predicate TodayOk(k: nat, cfg: Config, w: World, u: User) {
    && |OnDay(w.recips, u, DayStart(w.now))| + |Passed(w.execs, u)| <= cfg.cap + k - 1
    && (Passed(w.execs, u) != {} ==> cfg.cap >= 1)
  }

  ghost predicate CapInv(k: nat, cfg: Config, w: World) {
    && |w.execs.Keys| <= k
    && (forall key :: key in w.recips ==> w.recips[key] <= w.now)
    && (forall u :: TodayOk(k, cfg, w, u))
    && (forall u, t :: |OnDay(w.recips, u, DayStart(t))| <= cfg.cap + k - 1)
  }

  lemma SubsetCard<T>(a: set<T>, b: set<T>)
    requires a <= b
    ensures |a| <= |b|
  {
    if a != {} {
      var x :| x in a;
      SubsetCard(a - {x}, b - {x});
    }
  }

  lemma PassedAreFew(execs: map<Pid, Exec>, u: User)
    ensures |Passed(execs, u)| <= |execs.Keys|
  {
    SubsetCard(Passed(execs, u), execs.Keys);
  }

  /** An executor moves and nobody newly passes the check. */
  lemma FewerPassed(k: nat, cfg: Config, w: World, w': World)
    requires CapInv(k, cfg, w) && w'.recips == w.recips && w'.now == w.now && |w'.execs.Keys| <= k
    requires forall u :: Passed(w'.execs, u) <= Passed(w.execs, u)
    ensures CapInv(k, cfg, w')
  {
    hide DayStart, OnDay;
    forall u
      ensures TodayOk(k, cfg, w', u)
    {
      assert TodayOk(k, cfg, w, u);
      SubsetCard(Passed(w'.execs, u), Passed(w.execs, u));
    }
  }

  /** A new day begins without recipients. */
  lemma CapTick(k: nat, cfg: Config, w: World, w': World)
    requires CapInv(k, cfg, w) && cfg.cap >= 0 && k >= 1
    requires w' == w.(now := w'.now) && w'.now >= w.now
    ensures CapInv(k, cfg, w')
  {
    forall u
      ensures TodayOk(k, cfg, w', u)
    {
      assert TodayOk(k, cfg, w, u);
      if DayStart(w'.now) != DayStart(w.now) {
        if w.now >= DayStart(w'.now) {
          SameDay(w'.now, w.now);
        }
        hide DayStart;
        assert OnDay(w'.recips, u, DayStart(w'.now)) == {};
        PassedAreFew(w.execs, u);
      }
    }
  }

  /** Passing the check leaves room for everybody past it. */
  lemma CapCheck(k: nat, cfg: Config, w: World, p: Pid, w': World)
    requires CapInv(k, cfg, w) && p in w.execs
    requires var e := w.execs[p];
             && e.pc.AtHead? && e.i < |e.ids| && |Today(w.recips, e.ids[e.i], w.now)| < cfg.cap
             && w' == w.(execs := w.execs[p := e.(pc := AtInsert)])
    ensures CapInv(k, cfg, w')
  {
    hide DayStart;
    forall u
      ensures TodayOk(k, cfg, w', u)
    {
      assert TodayOk(k, cfg, w, u);
      if u == w.execs[p].ids[w.execs[p].i] {
        assert OnDay(w.recips, u, DayStart(w.now)) == Today(w.recips, u, w.now);
        PassedAreFew(w'.execs, u);
      } else {
        assert Passed(w'.execs, u) == Passed(w.execs, u);
      }
    }
  }

  lemma OnDayAdded(recips: Recipients, key: (Id, User), now: int, u: User, t: int)
    requires key !in recips
    ensures |OnDay(recips[key := now], u, DayStart(t))| ==
              |OnDay(recips, u, DayStart(t))| + if u == key.1 && DayStart(t) == DayStart(now) then 1 else 0
  {
    if DayStart(t) <= now < DayStart(t) + DAY {
      SameDay(t, now);
    }
    var added: set<(Id, User)> := if u == key.1 && DayStart(t) == DayStart(now) then {key} else {};
    assert OnDay(recips[key := now], u, DayStart(t)) == OnDay(recips, u, DayStart(t)) + added;
  }

  lemma PassedLeaves(execs: map<Pid, Exec>, p: Pid, e': Exec, u: User)
    requires p in execs && execs[p].pc.AtInsert? && execs[p].i < |execs[p].ids| && !e'.pc.AtInsert?
    ensures |Passed(execs[p := e'], u)| == |Passed(execs, u)| - if u == execs[p].ids[execs[p].i] then 1 else 0
    ensures Passed(execs[p := e'], u) <= Passed(execs, u)
  {
    var rest := Passed(execs, u) - {p};
    assert Passed(execs[p := e'], u) == rest;
    assert Passed(execs, u) == if u == execs[p].ids[execs[p].i] then rest + {p} else rest;
  }

  /** An insert turns one that has passed into a recipient of today. */
  lemma CapAdd(k: nat, cfg: Config, w: World, p: Pid, e': Exec, w': World)
    requires CapInv(k, cfg, w) && p in w.execs && !e'.pc.AtInsert?
    requires var e := w.execs[p];
             && e.pc.AtInsert? && e.i < |e.ids| && e.Key() !in w.recips
             && w'.recips == w.recips[e.Key() := w.now] && w'.execs == w.execs[p := e'] && w'.now == w.now
    ensures CapInv(k, cfg, w')
  {
    hide DayStart, OnDay, Passed;
    var key := w.execs[p].Key();
    forall u
      ensures TodayOk(k, cfg, w', u)
    {
      assert TodayOk(k, cfg, w, u);
      OnDayAdded(w.recips, key, w.now, u, w.now);
      PassedLeaves(w.execs, p, e', u);
    }
    forall u, t
      ensures |OnDay(w'.recips, u, DayStart(t))| <= cfg.cap + k - 1
    {
      assert TodayOk(k, cfg, w', u);
      assert |OnDay(w.recips, u, DayStart(t))| <= cfg.cap + k - 1;
      OnDayAdded(w.recips, key, w.now, u, t);
    }
  }

  lemma CapExec(k: nat, cfg: Config, w: World, p: Pid, s: Step, w': World)
    requires CapInv(k, cfg, w) && !s.SkipCap? && p in w.execs && DoExec(cfg, w, p, w.execs[p], s) == Some(w')
    ensures CapInv(k, cfg, w')
  {
    hide InQuiet, NextAllowed, Today, CapInv;
    var e := w.execs[p];
    if s.CheckCap? && |Today(w.recips, e.ids[e.i], w.now)| < cfg.cap {
      CapCheck(k, cfg, w, p, w');
    } else if (s.AddRecipient? || (s.LoseInsert? && s.stored)) && e.Key() !in w.recips {
      CapAdd(k, cfg, w, p, w'.execs[p], w');
    } else {
      MovesAway(k, cfg, w, p, w');
    }
  }

  /** The executor leaves or moves to where it is not past the check. */
  lemma MovesAway(k: nat, cfg: Config, w: World, p: Pid, w': World)
    requires CapInv(k, cfg, w) && p in w.execs && w'.recips == w.recips && w'.now == w.now
    requires w'.execs == Without(w.execs, p)
             || (p in w'.execs && w'.execs == w.execs[p := w'.execs[p]] && !w'.execs[p].pc.AtInsert?)
    ensures CapInv(k, cfg, w')
  {
    assert w'.execs.Keys <= w.execs.Keys;
    SubsetCard(w'.execs.Keys, w.execs.Keys);
    FewerPassed(k, cfg, w, w');
  }

  /** The steps that no executor makes: the campaign rows and the clock change, or an executor comes. */
  lemma CapShared(k: nat, cfg: Config, w: World, s: Step, w': World)
    requires CapInv(k, cfg, w) && cfg.cap >= 0 && k >= 1 && Limited(k, w, s) && Do(cfg, w, s) == Some(w')
    requires s.Create? || s.CancelIt? || s.ClaimIt?
    ensures CapInv(k, cfg, w')
  {
    hide Claimable, OnDay, DayStart, DoExec;
    assert w'.execs.Keys == if s.ClaimIt? then w.execs.Keys + {s.p} else w.execs.Keys;
    FewerPassed(k, cfg, w, w');
  }

  lemma CapStep(k: nat, cfg: Config, w: World, s: Step, w': World)
    requires CapInv(k, cfg, w) && cfg.cap >= 0 && k >= 1 && Limited(k, w, s) && Do(cfg, w, s) == Some(w')
    ensures CapInv(k, cfg, w')
  {
    hide DoExec, CapInv, Claimable;
    if s.Tick? {
      CapTick(k, cfg, w, w');
    } else if s.Create? || s.CancelIt? || s.ClaimIt? {
      CapShared(k, cfg, w, s, w');
    } else if s.Crash? {
      MovesAway(k, cfg, w, s.p, w');
    } else {
      CapExec(k, cfg, w, s.p, s, w');
    }
  }

  lemma {:induction false} LimitedKeepsCap(k: nat, cfg: Config, worlds: seq<World>, steps: seq<Step>, n: nat)
    requires LimitedRun(k, cfg, worlds, steps) && cfg.cap >= 0 && k >= 1 && n < |worlds|
    ensures CapInv(k, cfg, worlds[n])
  {
    if n > 0 {
      LimitedKeepsCap(k, cfg, worlds, steps, n - 1);
      CapStep(k, cfg, worlds[n - 1], steps[n - 1], worlds[n]);
    } else {
      EmptyWorld(k, cfg, worlds[0]);
    }
  }

  lemma EmptyWorld(k: nat, cfg: Config, w: World)
    requires w == World(w.now, map[], map[], map[], [], {}, 0, 0) && cfg.cap >= 0 && k >= 1
    ensures CapInv(k, cfg, w)
  {
    hide DayStart;
    assert forall u, t :: OnDay(w.recips, u, DayStart(t)) == {};
    assert forall u :: Passed(w.execs, u) == {};
  }

  /** With at most k executions at a time, no user has more than cap + k - 1 recipient rows in one Damascus
      day; with one execution at a time, no more than the cap. */
  lemma DailyBound(k: nat, cfg: Config, worlds: seq<World>, steps: seq<Step>, n: nat, u: User, t: int)
    requires LimitedRun(k, cfg, worlds, steps) && cfg.cap >= 0 && k >= 1 && n < |worlds|
    ensures |OnDay(worlds[n].recips, u, DayStart(t))| <= cfg.cap + k - 1
  {
    LimitedKeepsCap(k, cfg, worlds, steps, n);
  }
}
