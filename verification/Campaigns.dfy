/** The campaign rows and what the service does to them
    (backend/internal/campaigns/send.go and service.go). Each SQL statement is one function of the rows. */
module Campaigns {
  import opened Common
  import opened Quiet

  type Id = int
  type User = int
  type Target = int

  datatype Status = Draft | Scheduled | Sending | Sent | Cancelled | Failed

  /** A row of campaigns. `target` is the audience of an interest campaign. */
  datatype Row = Row(
    status: Status, claimedAt: Option<int>, scheduledAt: Option<int>, target: Option<Target>,
    targeted: nat, inbox: nat, deferred: nat)

  /** The lease of a claim. */
  const LEASE := 300_000_000_000

  type Rows = map<Id, Row>

  /** campaign_recipients: when each recipient was added. */
  type Recipients = map<(Id, User), int>

  // ----- the statements -----

  /** The condition of the claiming UPDATE. */
  predicate Claimable(r: Row, now: int) {
    || r.status == Draft || r.status == Scheduled
    || (r.status == Sending && r.claimedAt.Some? && r.claimedAt.value < now - LEASE)
  }

  function Claim(r: Row, now: int): Row {
    r.(status := Sending, claimedAt := Some(now))
  }

  predicate Cancellable(s: Status) {
    s == Draft || s == Scheduled
  }

  function Cancel(r: Row): Row {
    r.(status := Cancelled)
  }

  function Fail(r: Row): Row {
    r.(status := Failed, claimedAt := None)
  }

  function Reschedule(r: Row, next: int, targeted: nat, deferred: nat): Row {
    r.(status := Scheduled, scheduledAt := Some(next), claimedAt := None, targeted := targeted, deferred := deferred)
  }

  function Finish(r: Row, targeted: nat, inbox: nat, deferred: nat): Row {
    r.(status := Sent, claimedAt := None, targeted := targeted, inbox := inbox, deferred := deferred)
  }

  /** The user's recipient rows since the local midnight. */
  function Today(recips: Recipients, u: User, now: int): set<(Id, User)> {
    set k | k in recips && k.1 == u && recips[k] >= DayStart(now)
  }

  /** The user's recipient rows of the local day that starts at m. */
  function OnDay(recips: Recipients, u: User, m: int): set<(Id, User)> {
    set k | k in recips && k.1 == u && m <= recips[k] < m + DAY
  }

  // ---------------------------------------------------------------------------------------
  // One execution with the service to itself
  // ---------------------------------------------------------------------------------------

  class CampaignDb {
    var rows: Rows
    var recipients: Recipients
    /** Every Notify, in order. */
    var notified: seq<(Id, User)>
    /** The interest subscriptions marked as told. */
    var marked: set<(User, Target)>

    constructor ()
      ensures rows == map[] && recipients == map[] && notified == [] && marked == {}
    {
      rows, recipients, notified, marked := map[], map[], [], {};
    }

    /** The claim of a campaign: true for the executor that owns it from now on. */
    method ClaimCampaign(c: Id, now: int) returns (won: bool)
      modifies this`rows
      ensures won == (c in old(rows) && Claimable(old(rows)[c], now))
      ensures rows == if won then old(rows)[c := Claim(old(rows)[c], now)] else old(rows)
    {
      won := c in rows && Claimable(rows[c], now);
      if won {
        rows := rows[c := Claim(rows[c], now)];
      }
    }

    /** The insert that locks a recipient for a campaign. */
    method ClaimRecipient(c: Id, u: User, now: int) returns (isNew: bool)
      modifies this`recipients
      ensures isNew == ((c, u) !in old(recipients))
      ensures recipients == if isNew then old(recipients)[(c, u) := now] else old(recipients)
    {
      isNew := (c, u) !in recipients;
      if isNew {
        recipients := recipients[(c, u) := now];
      }
    }

    /** Adds one recipient, then notifies and marks; nothing for a user who has had the campaign. */
    method Deliver(c: Id, u: User, now: int, target: Option<Target>) returns (delivered: bool)
      modifies this`recipients, this`notified, this`marked
      ensures delivered == ((c, u) !in old(recipients))
      ensures recipients == if delivered then old(recipients)[(c, u) := now] else old(recipients)
      ensures notified == old(notified) + if delivered then [(c, u)] else []
      ensures marked == old(marked) + if delivered && target.Some? then {(u, target.value)} else {}
    {
      delivered := ClaimRecipient(c, u, now);
      if delivered {
        notified := notified + [(c, u)];
        if target.Some? {
          marked := marked + {(u, target.value)};
        }
      }
    }

    /** The loop over the audience outside quiet hours: the winners are added, notified and marked as told,
        in order. */
    method Distribute(c: Id, ids: seq<User>, cap: int, now: int, target: Option<Target>)
      returns (inbox: nat, deferred: nat)
      requires Distinct(ids)
      modifies this`recipients, this`notified, this`marked
      ensures var won := Winners(old(recipients), c, ids, cap, now);
              && notified == old(notified) + Pairs(c, won) && inbox == |won|
              && recipients == WithRecipients(old(recipients), c, won, now)
              && marked == old(marked) + Told(won, target)
      ensures deferred == CountCapped(old(recipients), ids, cap, now)
    {
      inbox, deferred := 0, 0;
      ghost var before := Tables(recipients, notified, marked);
      NothingDistributed(before, c, ids, cap, now, target);
      hide *;
      for i := 0 to |ids|
        invariant Distributed(
                    before, Tables(recipients, notified, marked), c, ids[..i], cap, now, target, inbox, deferred)
      {
        var u := ids[i];
        ghost var at := Tables(recipients, notified, marked);
        if |Today(recipients, u, now)| >= cap {
          CappedIsDeferred(before, at, c, ids, i, cap, now, target, inbox, deferred);
          deferred := deferred + 1;
          continue;
        }
        var delivered := Deliver(c, u, now, target);
        BelowCapIsDelivered(before, at, c, ids, i, cap, now, target, inbox, deferred);
        if delivered {
          inbox := inbox + 1;
        }
      }
      assert ids[..|ids|] == ids;
      AllDistributed(before, Tables(recipients, notified, marked), c, ids, cap, now, target, inbox, deferred);
    }

    /** The distribution of a claimed campaign while nothing else runs and the clock stands still. In quiet
        hours nobody is added and the campaign waits for the first allowed instant; otherwise the winners are
        added, notified and marked as told, in order, and the campaign is sent. */
    method Execute(c: Id, ids: seq<User>, quiet: QuietHours, cap: int, now: int)
      requires c in rows && rows[c].status == Sending
      requires Distinct(ids)
      modifies this
      ensures var won := if InQuiet(quiet, now) then [] else Winners(old(recipients), c, ids, cap, now);
              && notified == old(notified) + Pairs(c, won)
              && recipients == WithRecipients(old(recipients), c, won, now)
              && marked == old(marked) + Told(won, old(rows)[c].target)
              && rows == old(rows)[c :=
                   if InQuiet(quiet, now)
                   then Reschedule(old(rows)[c], NextAllowed(quiet, now), |ids|, |ids|)
                   else Finish(old(rows)[c], |ids|, |won|, CountCapped(old(recipients), ids, cap, now))]
      ensures ExecutionDone(old(State()), State(), c, true, ids, quiet, cap, now)
    {
      ghost var before := State();
      ExecutionMeans(before, c, true, ids, quiet, cap, now);
      NobodyDelivered(before.tables, c, now, before.rows[c].target);
      var deferByQuiet := InQuiet(quiet, now);
      assert WithRecipients(recipients, c, [], now) == recipients;
      hide InQuiet, NextAllowed, Winners, WithRecipients, CountCapped, Distinct, ExecutionDone, Pairs, Told;
      if deferByQuiet {
        rows := rows[c := Reschedule(rows[c], NextAllowed(quiet, now), |ids|, |ids|)];
      } else {
        var inbox, deferred := Distribute(c, ids, cap, now, rows[c].target);
        rows := rows[c := Finish(rows[c], |ids|, inbox, deferred)];
      }
    }

    function State(): Store
      reads this
    {
      Store(rows, Tables(recipients, notified, marked))
    }

    /** Send, while nothing else runs: a campaign that can be claimed is claimed and executed, and any other left
        alone. */
    method Send(c: Id, ready: bool, ids: seq<User>, quiet: QuietHours, cap: int, now: int) returns (r: SendResult)
      requires Distinct(ids)
      modifies this
      ensures State() == AfterSend(old(State()), c, ready, ids, quiet, cap, now)
      ensures r == if c !in old(rows) then Gone
                   else if old(rows)[c].status == Sent then SentBefore
                   else if old(rows)[c].status == Cancelled then WasCancelled
                   else if Claimable(old(rows)[c], now) then Executed
                   else NotClaimed
      ensures r == Executed ==> ExecutionDone(old(State()), State(), c, ready, ids, quiet, cap, now)
      ensures r != Executed ==> State() == old(State())
    {
      if c !in rows {
        return Gone;
      }
      if rows[c].status == Sent {
        return SentBefore;
      }
      if rows[c].status == Cancelled {
        return WasCancelled;
      }
      ghost var before := State();
      var won := ClaimCampaign(c, now);
      if !won {
        return NotClaimed;
      }
      SendMeans(before, c, ready, ids, quiet, cap, now);
      if !ready {
        rows := rows[c := Fail(rows[c])];
        return Executed;
      }
      hide InQuiet, NextAllowed, Winners, WithRecipients, CountCapped, Distinct, Pairs, Told, ExecutionDone;
      NobodyDelivered(before.tables, c, now, before.rows[c].target);
      Execute(c, ids, quiet, cap, now);
      return Executed;
    }
  }

  // ---------------------------------------------------------------------------------------
  // Sending, and sending again
  // ---------------------------------------------------------------------------------------

  /** What a call of Send finds: no such campaign, one that was sent, one that was cancelled, one it could not claim,
      or one it has executed. */
  datatype SendResult = Gone | SentBefore | WasCancelled | NotClaimed | Executed

  /** All tables. */
  datatype Store = Store(rows: Rows, tables: Tables)

  /** A claimed campaign executed; `ready` says that its target is serviceable, its offer live and its audience
      read. */
  function AfterExecution(
    s: Store, c: Id, ready: bool, ids: seq<User>, quiet: QuietHours, cap: int, now: int): Store
    requires c in s.rows
  {
    var row := s.rows[c];
    if !ready then s.(rows := s.rows[c := Fail(row)])
    else if InQuiet(quiet, now) then
      s.(rows := s.rows[c := Reschedule(row, NextAllowed(quiet, now), |ids|, |ids|)])
    else
      var won := Winners(s.tables.recipients, c, ids, cap, now);
      Store(s.rows[c := Finish(row, |ids|, |won|, CountCapped(s.tables.recipients, ids, cap, now))],
            Delivered(s.tables, c, won, now, row.target))
  }

  function AfterSend(s: Store, c: Id, ready: bool, ids: seq<User>, quiet: QuietHours, cap: int, now: int): Store {
    if c !in s.rows || !Claimable(s.rows[c], now) then s
    else AfterExecution(s.(rows := s.rows[c := Claim(s.rows[c], now)]), c, ready, ids, quiet, cap, now)
  }

  // ----- what an execution leaves, field by field -----

  /** The user has had as many campaigns since the local midnight as the cap allows, or more. */
  predicate AtCap(recips: Recipients, u: User, cap: int, now: int) {
    |set k | k in recips && k.1 == u && DayStart(now) <= recips[k]| >= cap
  }

  /** The user is reached: below the cap, and without the campaign so far. */
  predicate Reached(recips: Recipients, c: Id, u: User, cap: int, now: int) {
    (c, u) !in recips && !AtCap(recips, u, cap, now)
  }

  function CappedPlaces(recips: Recipients, ids: seq<User>, cap: int, now: int): set<nat> {
    set i: nat | i < |ids| && AtCap(recips, ids[i], cap, now)
  }

  /** The log grows by the reached users of the list, in its order. */
  ghost predicate NotifiedInOrder(was: Tables, after: Tables, c: Id, ids: seq<User>, cap: int, now: int) {
    && |was.notified| <= |after.notified| && after.notified[..|was.notified|] == was.notified
    && exists at: seq<nat> ::
         && |at| == |after.notified| - |was.notified| && Increasing(at)
         && (forall i: nat :: i in at <==> i < |ids| && Reached(was.recipients, c, ids[i], cap, now))
         && forall m :: 0 <= m < |at| ==> at[m] < |ids| && after.notified[|was.notified| + m] == (c, ids[at[m]])
  }

  /** The reached users of the list become recipients, and are marked as told. */
  ghost predicate ReachedOnly(
    was: Tables, after: Tables, c: Id, ids: seq<User>, cap: int, now: int, target: Option<Target>)
  {
    && (forall k :: k in after.recipients <==>
          k in was.recipients || (k.0 == c && k.1 in ids && Reached(was.recipients, c, k.1, cap, now)))
    && (forall k :: k in after.recipients ==>
          after.recipients[k] == if k in was.recipients then was.recipients[k] else now)
    && (forall k :: k in after.marked <==>
          || k in was.marked
          || (target == Some(k.1) && k.0 in ids && Reached(was.recipients, c, k.0, cap, now)))
  }

  /** The first instant from now on outside quiet hours. */
  ghost predicate FirstAllowed(quiet: QuietHours, now: int, u: int) {
    && now <= u && !Silent(quiet, u)
    && forall v :: now <= v < u ==> Silent(quiet, v)
  }

  predicate HoursOfDay(quiet: QuietHours) {
    0 <= quiet.from < 24 && 0 <= quiet.to < 24
  }

  /** One campaign executed: failed when it is not ready; in quiet hours put off to the first allowed instant, with
      everyone deferred and nobody told; and otherwise sent, to everyone of its audience who can be reached. */
  ghost predicate ExecutionDone(
    was: Store, after: Store, c: Id, ready: bool, ids: seq<User>, quiet: QuietHours, cap: int, now: int)
  {
    && c in was.rows && c in after.rows && (forall d :: d in after.rows <==> d in was.rows)
    && (forall d :: d in after.rows && d != c ==> after.rows[d] == was.rows[d])
    && after.rows[c].claimedAt == None && after.rows[c].target == was.rows[c].target
    && if !ready then FailedRow(was.rows[c], after.rows[c]) && after.tables == was.tables
       else if InQuiet(quiet, now) then
         PutOff(was.rows[c], after.rows[c], |ids|, quiet, now) && after.tables == was.tables
       else
         && SentRow(was.rows[c], after.rows[c], |ids|)
         && after.rows[c].inbox == |after.tables.notified| - |was.tables.notified|
         && after.rows[c].deferred == |CappedPlaces(was.tables.recipients, ids, cap, now)|
         && NotifiedInOrder(was.tables, after.tables, c, ids, cap, now)
         && ReachedOnly(was.tables, after.tables, c, ids, cap, now, was.rows[c].target)
  }

  predicate FailedRow(was: Row, after: Row) {
    && after.status == Failed && after.scheduledAt == was.scheduledAt
    && after.targeted == was.targeted && after.inbox == was.inbox && after.deferred == was.deferred
  }

  ghost predicate PutOff(was: Row, after: Row, audience: nat, quiet: QuietHours, now: int) {
    && after.status == Scheduled && after.targeted == audience && after.deferred == audience && after.inbox == was.inbox
    && after.scheduledAt.Some? && (HoursOfDay(quiet) ==> FirstAllowed(quiet, now, after.scheduledAt.value))
  }

  predicate SentRow(was: Row, after: Row, audience: nat) {
    after.status == Sent && after.scheduledAt == was.scheduledAt && after.targeted == audience
  }

  /** The winners are the reached users, in the order of the list. */
  lemma {:induction false} WinnersInOrder(recips: Recipients, c: Id, ids: seq<User>, cap: int, now: int)
    returns (at: seq<nat>)
    ensures var won := Winners(recips, c, ids, cap, now);
            && |at| == |won| && Increasing(at)
            && (forall i: nat :: i in at <==> i < |ids| && Reached(recips, c, ids[i], cap, now))
            && (forall m :: 0 <= m < |at| ==> at[m] < |ids| && won[m] == ids[at[m]])
  {
    at := [];
    if ids != [] {
      var n := |ids| - 1;
      at := WinnersInOrder(recips, c, ids[..n], cap, now);
      ReachedIsChosen(recips, c, ids[n], cap, now);
      hide Reached, Chosen;
      assert forall i: nat :: i < n ==> ids[..n][i] == ids[i];
      if Reached(recips, c, ids[n], cap, now) {
        var before := at;
        at := before + [n];
        assert forall i: nat :: i in at <==> i in before || i == n;
      }
    }
  }

  lemma ReachedIsChosen(recips: Recipients, c: Id, u: User, cap: int, now: int)
    ensures Reached(recips, c, u, cap, now) <==> Chosen(recips, c, u, cap, now)
    ensures AtCap(recips, u, cap, now) <==> |Today(recips, u, now)| >= cap
  {
    hide DayStart;
    assert Today(recips, u, now) == set k | k in recips && k.1 == u && DayStart(now) <= recips[k];
  }

  lemma {:induction false} CappedAreCounted(recips: Recipients, ids: seq<User>, cap: int, now: int)
    ensures CountCapped(recips, ids, cap, now) == |CappedPlaces(recips, ids, cap, now)|
  {
    if ids == [] {
      assert CappedPlaces(recips, ids, cap, now) == {};
    } else {
      var n := |ids| - 1;
      CappedAreCounted(recips, ids[..n], cap, now);
      ReachedIsChosen(recips, 0, ids[n], cap, now);
      hide AtCap, Today;
      var before, after := CappedPlaces(recips, ids[..n], cap, now), CappedPlaces(recips, ids, cap, now);
      assert after == if AtCap(recips, ids[n], cap, now) then before + {n} else before;
    }
  }

  lemma DeliveredInOrder(t: Tables, c: Id, ids: seq<User>, cap: int, now: int, target: Option<Target>)
    ensures NotifiedInOrder(t, Delivered(t, c, Winners(t.recipients, c, ids, cap, now), now, target), c, ids, cap, now)
  {
    var at := WinnersInOrder(t.recipients, c, ids, cap, now);
    hide Winners, Reached, WithRecipients, Told, Increasing;
    var won := Winners(t.recipients, c, ids, cap, now);
    var after := Delivered(t, c, won, now, target);
    assert forall m :: 0 <= m < |at| ==> after.notified[|t.notified| + m] == (c, won[m]);
  }

  lemma WinnersAreReached(recips: Recipients, c: Id, ids: seq<User>, cap: int, now: int)
    ensures forall u :: u in Winners(recips, c, ids, cap, now) <==> u in ids && Reached(recips, c, u, cap, now)
  {
    WinnersAreListed(recips, c, ids, cap, now);
    hide Winners, Chosen, Reached;
    forall u
      ensures Reached(recips, c, u, cap, now) <==> Chosen(recips, c, u, cap, now)
    {
      ReachedIsChosen(recips, c, u, cap, now);
    }
  }

  lemma DeliveredToReached(t: Tables, c: Id, ids: seq<User>, cap: int, now: int, target: Option<Target>)
    ensures var after := Delivered(t, c, Winners(t.recipients, c, ids, cap, now), now, target);
            ReachedOnly(t, after, c, ids, cap, now, target)
  {
    WinnersAreReached(t.recipients, c, ids, cap, now);
    ReachedAreNew(t.recipients, c, cap, now);
    hide Winners, Reached, Pairs;
    var won := Winners(t.recipients, c, ids, cap, now);
    AddedRecipients(t.recipients, c, won, now);
    hide WithRecipients;
  }

  lemma ReachedAreNew(recips: Recipients, c: Id, cap: int, now: int)
    ensures forall u :: Reached(recips, c, u, cap, now) ==> (c, u) !in recips
  {
  }

  lemma AddedRecipients(recips: Recipients, c: Id, won: seq<User>, now: int)
    requires forall u :: u in won ==> (c, u) !in recips
    ensures var after := WithRecipients(recips, c, won, now);
            && (forall k :: k in after <==> k in recips || (k.0 == c && k.1 in won))
            && (forall k :: k in after ==> after[k] == if k in recips then recips[k] else now)
  {
    var more := map u | u in won :: (c, u) := now;
    assert forall u :: u in won ==> (c, u) in more;
    assert forall k: (Id, User) :: k.0 == c && k.1 in won ==> k == (c, k.1);
  }

  lemma PutOffRow(r: Row, audience: nat, quiet: QuietHours, now: int)
    requires InQuiet(quiet, now)
    ensures PutOff(r, Reschedule(r, NextAllowed(quiet, now), audience, audience), audience, quiet, now)
  {
    hide InQuiet, NextAllowed, Silent, HourOf;
    if HoursOfDay(quiet) {
      InQuietIsSilent(quiet);
      NextAllowedIsLeast(quiet, now, now);
      forall v | now <= v < NextAllowed(quiet, now)
        ensures Silent(quiet, v)
      {
        NextAllowedIsLeast(quiet, now, v);
      }
    }
  }

  /** Outside quiet hours the winners are the reached, in order. */
  lemma SentMeans(s: Store, c: Id, ids: seq<User>, quiet: QuietHours, cap: int, now: int)
    requires c in s.rows && !InQuiet(quiet, now)
    ensures ExecutionDone(s, AfterExecution(s, c, true, ids, quiet, cap, now), c, true, ids, quiet, cap, now)
  {
    hide InQuiet, NextAllowed, Winners, CountCapped, Delivered, CappedPlaces, NotifiedInOrder, ReachedOnly, PutOff;
    var target := s.rows[c].target;
    DeliveredInOrder(s.tables, c, ids, cap, now, target);
    DeliveredToReached(s.tables, c, ids, cap, now, target);
    CappedAreCounted(s.tables.recipients, ids, cap, now);
    PairsLength(s.tables, c, Winners(s.tables.recipients, c, ids, cap, now), now, target);
  }

  lemma PutOffMeans(s: Store, c: Id, ids: seq<User>, quiet: QuietHours, cap: int, now: int)
    requires c in s.rows && InQuiet(quiet, now)
    ensures ExecutionDone(s, AfterExecution(s, c, true, ids, quiet, cap, now), c, true, ids, quiet, cap, now)
  {
    hide InQuiet, NextAllowed, Winners, CountCapped, Delivered, CappedPlaces, NotifiedInOrder, ReachedOnly, PutOff;
    PutOffRow(s.rows[c], |ids|, quiet, now);
  }

  lemma FailedMeans(s: Store, c: Id, ids: seq<User>, quiet: QuietHours, cap: int, now: int)
    requires c in s.rows
    ensures ExecutionDone(s, AfterExecution(s, c, false, ids, quiet, cap, now), c, false, ids, quiet, cap, now)
  {
    hide InQuiet, NextAllowed, Winners, CountCapped, Delivered, CappedPlaces, NotifiedInOrder, ReachedOnly, PutOff;
  }

  /** An execution leaves what it should. */
  lemma ExecutionMeans(
    s: Store, c: Id, ready: bool, ids: seq<User>, quiet: QuietHours, cap: int, now: int)
    requires c in s.rows
    ensures ExecutionDone(s, AfterExecution(s, c, ready, ids, quiet, cap, now), c, ready, ids, quiet, cap, now)
  {
    hide *;
    if !ready {
      FailedMeans(s, c, ids, quiet, cap, now);
    } else if InQuiet(quiet, now) {
      PutOffMeans(s, c, ids, quiet, cap, now);
    } else {
      SentMeans(s, c, ids, quiet, cap, now);
    }
  }

  lemma PairsLength(t: Tables, c: Id, won: seq<User>, now: int, target: Option<Target>)
    ensures |Delivered(t, c, won, now, target).notified| == |t.notified| + |won|
  {
  }

  /** The claim leaves no trace in what is executed. */
  lemma SendMeans(s: Store, c: Id, ready: bool, ids: seq<User>, quiet: QuietHours, cap: int, now: int)
    requires c in s.rows && Claimable(s.rows[c], now)
    ensures ExecutionDone(s, AfterSend(s, c, ready, ids, quiet, cap, now), c, ready, ids, quiet, cap, now)
  {
    var claimed := s.(rows := s.rows[c := Claim(s.rows[c], now)]);
    ExecutionMeans(claimed, c, ready, ids, quiet, cap, now);
    hide InQuiet, AfterExecution, CappedPlaces, NotifiedInOrder, ReachedOnly, FirstAllowed;
  }

  /** A campaign that was sent or failed is never sent again, whenever, to whomever; one put off in quiet hours reaches
      nobody as long as they last; and the same call again changes nothing. */
  lemma SendAgain(
    s: Store, c: Id, ready: bool, ids: seq<User>, quiet: QuietHours, cap: int, now: int,
    ready': bool, ids': seq<User>, now': int)
    requires c in s.rows && Claimable(s.rows[c], now)
    ensures var once := AfterSend(s, c, ready, ids, quiet, cap, now);
            var twice := AfterSend(once, c, ready', ids', quiet, cap, now');
            && (!ready || !InQuiet(quiet, now) ==> twice == once)
            && (ready && InQuiet(quiet, now) && InQuiet(quiet, now') ==> twice.tables == once.tables == s.tables)
            && (ready' == ready && ids' == ids && now' == now ==> twice == once)
  {
    hide InQuiet, NextAllowed, Winners, CountCapped, Delivered;
  }

  /** The users at or above the cap. */
  function CountCapped(recips: Recipients, ids: seq<User>, cap: int, now: int): nat {
    if ids == [] then 0
    else
      var n := |ids| - 1;
      CountCapped(recips, ids[..n], cap, now) + if |Today(recips, ids[n], now)| < cap then 0 else 1
  }

  datatype Tables = Tables(recipients: Recipients, notified: seq<(Id, User)>, marked: set<(User, Target)>)

  /** What the loop does to the tables for the first users of its list. */
  ghost predicate Distributed(
    before: Tables, after: Tables, c: Id, ids: seq<User>, cap: int, now: int, target: Option<Target>,
    inbox: nat, deferred: nat)
  {
    var won := Winners(before.recipients, c, ids, cap, now);
    && inbox == |won| && deferred == CountCapped(before.recipients, ids, cap, now)
    && after == Delivered(before, c, won, now, target)
  }

  /** The tables with some users added, notified and marked. */
  function Delivered(t: Tables, c: Id, us: seq<User>, now: int, target: Option<Target>): Tables {
    Tables(WithRecipients(t.recipients, c, us, now), t.notified + Pairs(c, us), t.marked + Told(us, target))
  }

  lemma NothingDistributed(before: Tables, c: Id, ids: seq<User>, cap: int, now: int, target: Option<Target>)
    ensures Distributed(before, before, c, ids[..0], cap, now, target, 0, 0)
  {
    assert Pairs(c, []) == [] && WithRecipients(before.recipients, c, [], now) == before.recipients;
    assert Told([], target) == {};
  }

  lemma NobodyDelivered(t: Tables, c: Id, now: int, target: Option<Target>)
    ensures Delivered(t, c, [], now, target) == t
  {
    assert Pairs(c, []) == [] && WithRecipients(t.recipients, c, [], now) == t.recipients;
    assert Told([], target) == {};
  }

  lemma AllDistributed(
    before: Tables, after: Tables, c: Id, ids: seq<User>, cap: int, now: int, target: Option<Target>,
    inbox: nat, deferred: nat)
    requires Distributed(before, after, c, ids, cap, now, target, inbox, deferred)
    ensures var won := Winners(before.recipients, c, ids, cap, now);
            && after.notified == before.notified + Pairs(c, won) && inbox == |won|
            && after.recipients == WithRecipients(before.recipients, c, won, now)
            && after.marked == before.marked + Told(won, target)
            && deferred == CountCapped(before.recipients, ids, cap, now)
  {
    hide Winners, WithRecipients, Pairs, Told, CountCapped;
  }

  lemma CappedIsDeferred(
    before: Tables, at: Tables, c: Id, ids: seq<User>, i: nat, cap: int, now: int, target: Option<Target>,
    inbox: nat, deferred: nat)
    requires i < |ids| && Distinct(ids)
    requires Distributed(before, at, c, ids[..i], cap, now, target, inbox, deferred)
    requires |Today(at.recipients, ids[i], now)| >= cap
    ensures Distributed(before, at, c, ids[..i + 1], cap, now, target, inbox, deferred + 1)
  {
    hide Winners, WithRecipients, Pairs, Told, CountCapped, Chosen, Today, Distinct;
    WinnersStep(before.recipients, c, ids, i, cap, now);
  }

  /** Below the cap: the user is delivered to when it is not a recipient yet. */
  lemma BelowCapIsDelivered(
    before: Tables, at: Tables, c: Id, ids: seq<User>, i: nat, cap: int, now: int, target: Option<Target>,
    inbox: nat, deferred: nat)
    requires i < |ids| && Distinct(ids)
    requires Distributed(before, at, c, ids[..i], cap, now, target, inbox, deferred)
    requires |Today(at.recipients, ids[i], now)| < cap
    ensures var ids' := ids[..i + 1];
            if (c, ids[i]) in at.recipients then Distributed(before, at, c, ids', cap, now, target, inbox, deferred)
            else Distributed(before, Added(at, c, ids[i], now, target), c, ids', cap, now, target, inbox + 1, deferred)
  {
    hide Winners, WithRecipients, Pairs, Told, CountCapped, Chosen, Today, Distinct;
    WinnersStep(before.recipients, c, ids, i, cap, now);
    OneMoreDelivered(before, c, Winners(before.recipients, c, ids[..i], cap, now), ids[i], now, target);
  }

  /** The tables with one more user added, notified and marked. */
  function Added(t: Tables, c: Id, u: User, now: int, target: Option<Target>): Tables {
    Tables(t.recipients[(c, u) := now], t.notified + [(c, u)],
           t.marked + if target.Some? then {(u, target.value)} else {})
  }

  lemma OneMoreDelivered(t: Tables, c: Id, us: seq<User>, u: User, now: int, target: Option<Target>)
    ensures Delivered(t, c, us + [u], now, target) == Added(Delivered(t, c, us, now, target), c, u, now, target)
  {
    hide WithRecipients, Pairs, Told;
    OneMoreWinner(t.recipients, c, us, u, now, target);
  }

  lemma WinnersStep(recips: Recipients, c: Id, ids: seq<User>, i: nat, cap: int, now: int)
    requires i < |ids| && Distinct(ids)
    ensures var u, won := ids[i], Winners(recips, c, ids[..i], cap, now);
            var recips' := WithRecipients(recips, c, won, now);
            && Winners(recips, c, ids[..i + 1], cap, now) == (if Chosen(recips, c, u, cap, now) then won + [u] else won)
            && CountCapped(recips, ids[..i + 1], cap, now) ==
                 CountCapped(recips, ids[..i], cap, now) + (if |Today(recips', u, now)| < cap then 0 else 1)
            && (Chosen(recips, c, u, cap, now) <==> |Today(recips', u, now)| < cap && (c, u) !in recips')
  {
    var u, won := ids[i], Winners(recips, c, ids[..i], cap, now);
    assert ids[..i + 1][..i] == ids[..i];
    WinnersAreListed(recips, c, ids[..i], cap, now);
    assert u !in won;
    NewcomerIsUnseen(recips, c, won, u, now);
  }

  predicate Distinct(ids: seq<User>) {
    forall i, j :: 0 <= i < j < |ids| ==> ids[i] != ids[j]
  }

  /** A user is chosen who is below the cap today and has not had the campaign. */
  predicate Chosen(recips: Recipients, c: Id, u: User, cap: int, now: int) {
    (c, u) !in recips && |Today(recips, u, now)| < cap
  }

  /** The chosen users in list order. */
  function Winners(recips: Recipients, c: Id, ids: seq<User>, cap: int, now: int): seq<User> {
    if ids == [] then []
    else
      var n := |ids| - 1;
      if Chosen(recips, c, ids[n], cap, now) then Winners(recips, c, ids[..n], cap, now) + [ids[n]]
      else Winners(recips, c, ids[..n], cap, now)
  }

  function Pairs(c: Id, us: seq<User>): seq<(Id, User)> {
    seq(|us|, i requires 0 <= i < |us| => (c, us[i]))
  }

  function WithRecipients(recips: Recipients, c: Id, us: seq<User>, now: int): Recipients {
    recips + map u | u in us :: (c, u) := now
  }

  function Told(us: seq<User>, target: Option<Target>): set<(User, Target)> {
    if target.Some? then set u | u in us :: (u, target.value) else {}
  }

  /** The winners are the chosen users of the list, each once. */
  lemma {:induction false} WinnersAreListed(recips: Recipients, c: Id, ids: seq<User>, cap: int, now: int)
    ensures forall u :: u in Winners(recips, c, ids, cap, now) <==> u in ids && Chosen(recips, c, u, cap, now)
    ensures Distinct(ids) ==> Distinct(Winners(recips, c, ids, cap, now))
  {
    hide Chosen;
    if ids != [] {
      WinnersAreListed(recips, c, ids[..|ids| - 1], cap, now);
    }
  }

  /** The users added so far do not count against another user. */
  lemma NewcomerIsUnseen(recips: Recipients, c: Id, won: seq<User>, u: User, now: int)
    requires u !in won
    ensures Today(WithRecipients(recips, c, won, now), u, now) == Today(recips, u, now)
    ensures (c, u) in WithRecipients(recips, c, won, now) <==> (c, u) in recips
  {
    hide DayStart;
  }

  lemma OneMoreWinner(recips: Recipients, c: Id, won: seq<User>, u: User, now: int, target: Option<Target>)
    ensures Pairs(c, won + [u]) == Pairs(c, won) + [(c, u)]
    ensures WithRecipients(recips, c, won + [u], now) == WithRecipients(recips, c, won, now)[(c, u) := now]
    ensures Told(won + [u], target) == Told(won, target) + if target.Some? then {(u, target.value)} else {}
  {
    hide WithRecipients;
    OneMoreRecipientRow(recips, c, won, u, now);
  }

  lemma OneMoreRecipientRow(recips: Recipients, c: Id, won: seq<User>, u: User, now: int)
    ensures WithRecipients(recips, c, won + [u], now) == WithRecipients(recips, c, won, now)[(c, u) := now]
  {
    assert forall v :: v in won + [u] <==> v in won || v == u;
  }
}
