/** The tables of codes and approvals, and what every run of creating, editing, deciding, using and releasing
    codes keeps. */
module PromoRuns {
  import opened Common
  import opened Promos

  /** The tables; `approved` is history: the terms each code had when finance last approved it. */
  datatype Book = Book(promos: map<Id, Promo>, requests: map<Id, Request>, nextId: nat, approved: map<Id, Terms>)

  datatype Step =
    | CreateIt(inp: PromoInput)
    | EditIt(id: Id, inp: PromoInput)
    | DecideIt(request: Id, approve: bool)
    | UseIt(id: Id, order: Order)
    | ReleaseIt(released: OrderId)

  predicate WaitsFor(r: Request, id: Id) {
    r.promo == id && r.verdict == Waiting
  }

  predicate HasRequest(requests: map<Id, Request>, id: Id) {
    exists q :: q in requests && WaitsFor(requests[q], id)
  }

  predicate CodeInUse(promos: map<Id, Promo>, code: string) {
    exists id :: id in promos && promos[id].code == code
  }

  function WithPromo(b: Book, p: Promo): Book {
    var with := b.(promos := b.promos[b.nextId := p], nextId := b.nextId + 2);
    if p.approval == Pending then
      with.(requests := b.requests[b.nextId + 1 := Request(b.nextId, Waiting, MaxCost(p.terms), p.terms)])
    else with
  }

  /** A new code, above the limit with its request. */
  function Create(upper: char -> char, b: Book, inp: PromoInput, now: int): Result<Book, PromoError> {
    var p := NewPromo(upper, inp, now);
    if p.Err? then Err(p.error)
    else if CodeInUse(b.promos, p.value.code) then Err(CodeTaken)
    else Ok(WithPromo(b, p.value))
  }

  /** INSERT ... ON CONFLICT DO UPDATE on the one pending request of a code. */
  function Proposed(b: Book, id: Id, t: Terms): Book {
    if HasRequest(b.requests, id) then
      b.(requests := map q | q in b.requests ::
           if WaitsFor(b.requests[q], id) then b.requests[q].(amount := MaxCost(t), noted := t) else b.requests[q])
    else b.(requests := b.requests[b.nextId := Request(id, Waiting, MaxCost(t), t)], nextId := b.nextId + 1)
  }

  function Withdrawn(b: Book, id: Id): Book {
    b.(requests := map q | q in b.requests && !WaitsFor(b.requests[q], id) :: b.requests[q])
  }

  function EditApplied(b: Book, id: Id, p: Promo, ask: Ask): Book {
    var c := b.(promos := b.promos[id := p]);
    match ask
    case Leave => c
    case Propose => Proposed(c, id, p.terms)
    case Withdraw => Withdrawn(c, id)
  }

  function Edit(b: Book, id: Id, inp: PromoInput, now: int): Result<Book, PromoError> {
    if id !in b.promos then Err(NotFound)
    else
      var e := Edited(b.promos[id], inp, now);
      if e.Err? then Err(e.error) else Ok(EditApplied(b, id, e.value.0, e.value.1))
  }

  /** The finance decision on a request. */
  function Decide(b: Book, q: Id, approve: bool): Result<Book, PromoError> {
    if q !in b.requests then Err(NotFound)
    else if b.requests[q].verdict != Waiting then Err(AlreadyDecided)
    else
      var r := b.requests[q];
      var decided := b.(requests := b.requests[q := r.(verdict := if approve then Accepted else Refused)]);
      if r.promo !in b.promos then Ok(decided)
      else
        var p := b.promos[r.promo].(approval := if approve then Approved else Rejected, active := approve);
        Ok(decided.(promos := b.promos[r.promo := p],
                    approved := if approve then b.approved[r.promo := p.terms] else b.approved))
  }

  predicate NewOrder(b: Book, o: OrderId) {
    forall id :: id in b.promos ==> o !in b.promos[id].uses
  }

  /** A new order uses a code: the counter moves and the redemption is written, in one transaction. */
  function Use(b: Book, id: Id, o: Order, now: int): Result<Book, PromoError> {
    if id !in b.promos || !NewOrder(b, o.id) then Err(Invalid)
    else
      var p := b.promos[id];
      if UseRefused(p, o, now).Some? then Err(UseRefused(p, o, now).value)
      else Ok(b.(promos := b.promos[id := p.(used := p.used + 1, uses := p.uses[o.id := o.user])]))
  }

  function ReleasedPromo(p: Promo, o: OrderId): Promo {
    if o in p.uses then p.(used := if p.used - 1 > 0 then p.used - 1 else 0, uses := p.uses - {o}) else p
  }

  /** An order is cancelled, rejected or failed. */
  function Release(b: Book, o: OrderId): Book {
    b.(promos := map id | id in b.promos :: ReleasedPromo(b.promos[id], o))
  }

  function Do(upper: char -> char, b: Book, s: Step, now: int): Book {
    match s
    case CreateIt(inp) => OrSame(Create(upper, b, inp, now), b)
    case EditIt(id, inp) => OrSame(Edit(b, id, inp, now), b)
    case DecideIt(q, approve) => OrSame(Decide(b, q, approve), b)
    case UseIt(id, o) => OrSame(Use(b, id, o, now), b)
    case ReleaseIt(o) => Release(b, o)
  }

  // ---------------------------------------------------------------------------------------
  // What the writes leave, row by row
  // ---------------------------------------------------------------------------------------

  predicate CodeUnused(promos: map<Id, Promo>, code: string) {
    forall id :: id in promos ==> promos[id].code != code
  }

  /** A request as it is written: it waits, with the terms and their cost. */
  predicate Asks(r: Request, id: Id, t: Terms) {
    r.promo == id && r.verdict == Waiting && r.amount == MaxCost(t) && r.noted == t
  }

  /** The book with one code more, and its request when it waits. */
  ghost predicate CodeAdded(upper: char -> char, b: Book, inp: PromoInput, now: int, c: Book) {
    var id := b.nextId;
    && id in c.promos && CodeMade(upper, inp, now, c.promos[id]) && CodeUnused(b.promos, c.promos[id].code)
    && c.promos == b.promos[id := c.promos[id]] && c.approved == b.approved && c.nextId == id + 2
    && (if c.promos[id].approval == Pending then
          && id + 1 in c.requests && Asks(c.requests[id + 1], id, c.promos[id].terms)
          && c.requests == b.requests[id + 1 := c.requests[id + 1]]
        else c.requests == b.requests)
  }

  ghost predicate MayAdd(upper: char -> char, b: Book, inp: PromoInput, now: int) {
    exists p :: CodeMade(upper, inp, now, p) && CodeUnused(b.promos, p.code)
  }

  predicate OthersSame(was: map<Id, Request>, now: map<Id, Request>, id: Id) {
    && (forall q :: q in was && !WaitsFor(was[q], id) ==> q in now && now[q] == was[q])
    && (forall q :: q in now && !WaitsFor(now[q], id) ==> q in was && was[q] == now[q])
  }

  /** The requests after an edit: those of other codes and those decided stay; the waiting ones of the code are left,
      written anew under their ids, or one new, or gone. */
  predicate RequestsAfter(was: map<Id, Request>, now: map<Id, Request>, id: Id, t: Terms, ask: Ask) {
    match ask
    case Leave => now == was
    case Propose =>
      && OthersSame(was, now, id)
      && (forall q :: q in was && WaitsFor(was[q], id) ==> q in now && WaitsFor(now[q], id))
      && (exists q :: q in now && WaitsFor(now[q], id))
      && (forall q :: q in now && WaitsFor(now[q], id) ==>
            Asks(now[q], id, t) && (q in was || forall p :: p in was ==> !WaitsFor(was[p], id)))
    case Withdraw => OthersSame(was, now, id) && forall q :: q in now ==> !WaitsFor(now[q], id)
  }

  /** The book with one code edited. */
  ghost predicate CodeChanged(b: Book, id: Id, inp: PromoInput, now: int, c: Book) {
    && id in b.promos && id in c.promos && c.promos == b.promos[id := c.promos[id]]
    && c.approved == b.approved && b.nextId <= c.nextId
    && exists ask ::
         && CodeEdited(b.promos[id], inp, now, c.promos[id], ask)
         && RequestsAfter(b.requests, c.requests, id, c.promos[id].terms, ask)
  }

  ghost predicate MayChange(b: Book, id: Id, inp: PromoInput, now: int) {
    id in b.promos && exists q, ask :: CodeEdited(b.promos[id], inp, now, q, ask)
  }

  /** A waiting request decided: its code is approved and on, or rejected and off. */
  ghost predicate Decided(b: Book, q: Id, approve: bool, c: Book) {
    && q in b.requests && b.requests[q].verdict == Waiting && q in c.requests
    && c.requests == b.requests[q := c.requests[q]] && c.nextId == b.nextId
    && c.requests[q].verdict == (if approve then Accepted else Refused)
    && c.requests[q].promo == b.requests[q].promo && c.requests[q].amount == b.requests[q].amount
    && c.requests[q].noted == b.requests[q].noted
    && var id := b.requests[q].promo;
       if id in b.promos then
         && id in c.promos && c.promos == b.promos[id := c.promos[id]]
         && c.promos[id].approval == (if approve then Approved else Rejected)
         && (c.promos[id].active <==> approve)
         && c.promos[id].code == b.promos[id].code && c.promos[id].terms == b.promos[id].terms
         && c.promos[id].used == b.promos[id].used && c.promos[id].uses == b.promos[id].uses
         && c.approved == (if approve then b.approved[id := b.promos[id].terms] else b.approved)
       else c.promos == b.promos && c.approved == b.approved
  }

  lemma CreateMeans(upper: char -> char, b: Book, inp: PromoInput, now: int)
    ensures Create(upper, b, inp, now).Ok? <==> MayAdd(upper, b, inp, now)
    ensures Create(upper, b, inp, now).Ok? ==> CodeAdded(upper, b, inp, now, Create(upper, b, inp, now).value)
  {
    hide NewPromo, CodeMade, MaxCost;
    NewPromoMeans(upper, inp, now);
    MadeWaits(upper, inp, now);
    var p := NewPromo(upper, inp, now);
    assert p.Ok? ==> (CodeInUse(b.promos, p.value.code) <==> !CodeUnused(b.promos, p.value.code));
  }

  lemma MadeWaits(upper: char -> char, inp: PromoInput, now: int)
    ensures forall p :: CodeMade(upper, inp, now, p) ==> p.approval == Pending || p.approval == Approved
  {
  }

  /** The next id is no request's. */
  predicate IdsAreUsed(b: Book) {
    forall q :: q in b.requests ==> q < b.nextId
  }

  lemma RequestsMean(b: Book, id: Id, p: Promo, ask: Ask)
    requires IdsAreUsed(b)
    ensures RequestsAfter(b.requests, EditApplied(b, id, p, ask).requests, id, p.terms, ask)
  {
    hide MaxCost;
    if ask.Propose? {
      var c := EditApplied(b, id, p, ask);
      if HasRequest(b.requests, id) {
        var q :| q in b.requests && WaitsFor(b.requests[q], id);
        assert q in c.requests && WaitsFor(c.requests[q], id);
      } else {
        assert b.nextId in c.requests && WaitsFor(c.requests[b.nextId], id);
      }
    }
  }

  lemma EditMeans(b: Book, id: Id, inp: PromoInput, now: int)
    ensures Edit(b, id, inp, now).Ok? <==> MayChange(b, id, inp, now)
    ensures Edit(b, id, inp, now).Ok? && IdsAreUsed(b) ==>
              CodeChanged(b, id, inp, now, Edit(b, id, inp, now).value)
  {
    hide Edited, CodeEdited, RequestsAfter, Proposed, Withdrawn;
    if id in b.promos {
      EditedMeans(b.promos[id], inp, now);
      var e := Edited(b.promos[id], inp, now);
      if e.Ok? && IdsAreUsed(b) {
        var (p, ask) := e.value;
        RequestsMean(b, id, p, ask);
        AppliedPromos(b, id, p, ask);
      }
    }
  }

  lemma AppliedPromos(b: Book, id: Id, p: Promo, ask: Ask)
    ensures var c := EditApplied(b, id, p, ask);
            c.promos == b.promos[id := p] && c.approved == b.approved && b.nextId <= c.nextId
  {
  }

  lemma DecideMeans(b: Book, q: Id, approve: bool)
    ensures Decide(b, q, approve).Ok? <==> q in b.requests && b.requests[q].verdict == Waiting
    ensures Decide(b, q, approve).Ok? ==> Decided(b, q, approve, Decide(b, q, approve).value)
  {
  }

  /** A new order that the code serves: on, approved, not expired, with a use left, and within its conditions. */
  predicate MayServe(b: Book, id: Id, o: Order, now: int) {
    && id in b.promos && (forall k :: k in b.promos ==> o.id !in b.promos[k].uses)
    && var p := b.promos[id];
       && p.active && p.approval == Approved
       && (p.terms.expiresAt.Some? ==> now <= p.terms.expiresAt.value)
       && (p.terms.maxUses.Some? ==> p.used < p.terms.maxUses.value)
       && o.subtotal >= p.terms.minOrder
       && (p.terms.oncePerUser ==> forall x :: x in p.uses ==> p.uses[x] != o.user)
       && (p.terms.firstOnly ==> !o.hasOrders)
  }

  predicate OtherTables(b: Book, c: Book) {
    c.requests == b.requests && c.nextId == b.nextId && c.approved == b.approved
  }

  predicate SameCode(p: Promo, q: Promo) {
    q.code == p.code && q.terms == p.terms && q.active == p.active && q.approval == p.approval
  }

  /** One use more, under the order. */
  predicate Served(b: Book, id: Id, o: Order, c: Book) {
    && id in b.promos && id in c.promos && c.promos == b.promos[id := c.promos[id]] && OtherTables(b, c)
    && SameCode(b.promos[id], c.promos[id])
    && c.promos[id].used == b.promos[id].used + 1 && c.promos[id].uses == b.promos[id].uses[o.id := o.user]
  }

  /** The use of the order given back, once, by each code that holds it. */
  predicate GivenBack(b: Book, o: OrderId, c: Book) {
    && c.promos.Keys == b.promos.Keys && OtherTables(b, c)
    && forall id :: id in b.promos ==>
         && SameCode(b.promos[id], c.promos[id])
         && o !in c.promos[id].uses && c.promos[id].uses == b.promos[id].uses - {o}
         && c.promos[id].used == (if o !in b.promos[id].uses then b.promos[id].used
                                  else if b.promos[id].used >= 1 then b.promos[id].used - 1 else 0)
  }

  /** When an order is served, and what its use writes. */
  lemma UseMeans(b: Book, id: Id, o: Order, now: int)
    ensures Use(b, id, o, now).Ok? <==> MayServe(b, id, o, now)
    ensures Use(b, id, o, now).Ok? ==> Served(b, id, o, Use(b, id, o, now).value)
  {
  }

  /** A cancelled order gives its use back, and nothing else changes. */
  lemma ReleaseMeans(b: Book, o: OrderId)
    ensures GivenBack(b, o, Release(b, o))
  {
    forall id | id in b.promos && o !in b.promos[id].uses
      ensures b.promos[id].uses - {o} == b.promos[id].uses
    {
    }
  }

  /** Every step of a run: what it does when it may, and that it does nothing when it may not. */
  lemma StepMeans(upper: char -> char, b: Book, s: Step, now: int)
    requires IdsAreUsed(b)
    ensures var c := Do(upper, b, s, now);
            match s
            case CreateIt(inp) => if MayAdd(upper, b, inp, now) then CodeAdded(upper, b, inp, now, c) else c == b
            case EditIt(id, inp) => if MayChange(b, id, inp, now) then CodeChanged(b, id, inp, now, c) else c == b
            case DecideIt(q, approve) =>
              if q in b.requests && b.requests[q].verdict == Waiting then Decided(b, q, approve, c) else c == b
            case UseIt(id, o) => if MayServe(b, id, o, now) then Served(b, id, o, c) else c == b
            case ReleaseIt(o) => GivenBack(b, o, c)
  {
    hide Create, Edit, Decide, Use, Release, MayAdd, CodeAdded, MayChange, CodeChanged, Decided, MayServe, Served,
      GivenBack;
    match s
    case CreateIt(inp) => CreateMeans(upper, b, inp, now);
    case EditIt(id, inp) => EditMeans(b, id, inp, now);
    case DecideIt(q, approve) => DecideMeans(b, q, approve);
    case UseIt(id, o) => UseMeans(b, id, o, now);
    case ReleaseIt(o) => ReleaseMeans(b, o);
  }

  // ---------------------------------------------------------------------------------------
  // The service
  // ---------------------------------------------------------------------------------------

  class PromoDb {
    var promos: map<Id, Promo>
    var requests: map<Id, Request>
    var nextId: nat
    ghost var approved: map<Id, Terms>

    ghost function State(): Book
      reads this
    {
      Book(promos, requests, nextId, approved)
    }

    constructor ()
      ensures State() == Book(map[], map[], 0, map[])
    {
      promos, requests, nextId, approved := map[], map[], 0, map[];
    }

    /** CreatePromoTx. */
    method CreatePromo(upper: char -> char, inp: PromoInput, now: int) returns (r: Result<Id, PromoError>)
      modifies this
      ensures var out := Create(upper, old(State()), inp, now);
              if out.Ok? then r == Ok(old(nextId)) && State() == out.value
              else r == Err(out.error) && State() == old(State())
      ensures r.Ok? <==> MayAdd(upper, old(State()), inp, now)
      ensures r.Ok? ==> CodeAdded(upper, old(State()), inp, now, State())
    {
      hide NormCode, Refusal, NeedsApproval, Promos.NewTerms, MayAdd, CodeAdded;
      CreateMeans(upper, State(), inp, now);
      if inp.code.None? || inp.kind.None? {
        return Err(BadCode);
      }
      var code := NormCode(upper, inp.code.value);
      if code.Err? {
        return Err(code.error);
      }
      if inp.expiry.Malformed? {
        return Err(BadDate);
      }
      var t := NewTerms(inp, inp.kind.value);
      if Over(t.expiresAt, now) {
        return Err(AlreadyExpired);
      }
      if Refusal(t).Some? {
        return Err(Refusal(t).value);
      }
      var pending := NeedsApproval(t);
      var active, approval := Or(inp.active, true), Approved;
      if pending {
        active, approval := false, Pending;
      }
      if CodeInUse(promos, code.value) {
        return Err(CodeTaken);
      }
      var id := nextId;
      promos := promos[id := Promo(code.value, t, active, approval, 0, map[])];
      if pending {
        requests := requests[id + 1 := Request(id, Waiting, MaxCost(t), t)];
      }
      nextId := id + 2;
      return Ok(id);
    }

    /** UpdatePromo. */
    method UpdatePromo(id: Id, inp: PromoInput, now: int) returns (r: Result<(), PromoError>)
      modifies this
      ensures var out := Edit(old(State()), id, inp, now);
              if out.Ok? then r == Ok(()) && State() == out.value
              else r == Err(out.error) && State() == old(State())
      ensures r.Ok? <==> MayChange(old(State()), id, inp, now)
      ensures r.Ok? && IdsAreUsed(old(State())) ==> CodeChanged(old(State()), id, inp, now, State())
    {
      hide Edited, MayChange, CodeChanged, CodeEdited;
      EditMeans(State(), id, inp, now);
      if id !in promos {
        return Err(NotFound);
      }
      var e := EditPromo(promos[id], inp, now);
      if e.Err? {
        return Err(e.error);
      }
      var (p, ask) := e.value;
      if ask.Propose? {
        if HasRequest(requests, id) {
          requests := map q | q in requests ::
            if WaitsFor(requests[q], id) then requests[q].(amount := MaxCost(p.terms), noted := p.terms)
            else requests[q];
        } else {
          requests := requests[nextId := Request(id, Waiting, MaxCost(p.terms), p.terms)];
          nextId := nextId + 1;
        }
      } else if ask.Withdraw? {
        requests := map q | q in requests && !WaitsFor(requests[q], id) :: requests[q];
      }
      promos := promos[id := p];
      return Ok(());
    }

    /** decidePromoApprovalTx. */
    method DecideApproval(q: Id, approve: bool) returns (r: Result<(), PromoError>)
      modifies this
      ensures var out := Decide(old(State()), q, approve);
              if out.Ok? then r == Ok(()) && State() == out.value
              else r == Err(out.error) && State() == old(State())
      ensures r.Ok? <==> q in old(requests) && old(requests)[q].verdict == Waiting
      ensures r.Ok? ==> Decided(old(State()), q, approve, State())
    {
      hide Decided;
      DecideMeans(State(), q, approve);
      if q !in requests {
        return Err(NotFound);
      }
      var request := requests[q];
      if request.verdict != Waiting {
        return Err(AlreadyDecided);
      }
      if request.promo in promos {
        var p := promos[request.promo].(approval := if approve then Approved else Rejected, active := approve);
        promos := promos[request.promo := p];
        if approve {
          approved := approved[request.promo := p.terms];
        }
      }
      requests := requests[q := request.(verdict := if approve then Accepted else Refused)];
      return Ok(());
    }
  }

  // ---------------------------------------------------------------------------------------
  // The invariant
  // ---------------------------------------------------------------------------------------

  /** A code against its pending request, if it has one, and the terms finance last approved, if any. */
  ghost predicate CodeOk(p: Promo, waits: bool, approved: Option<Terms>) {
    && (p.active ==> p.approval == Approved)
    && (p.approval == Pending <==> waits)
    && (p.approval != Approved ==> NeedsApproval(p.terms))
    && (p.approval == Approved && NeedsApproval(p.terms) ==> approved.Some? && NoMoreThan(p.terms, approved.value))
    && Refusal(p.terms).None?
    && p.used == |p.uses|
    && (approved.None? ==> p.used <= FREE_USES)
  }

  /** A request against its code: a waiting one was written from the code's gift, to the same people or more. */
  ghost predicate RequestOk(r: Request, p: Promo) {
    r.verdict == Waiting ==> p.approval == Pending && NoMoreThan(p.terms, r.noted) && r.amount == MaxCost(p.terms)
  }

  function ApprovedTerms(b: Book, id: Id): Option<Terms> {
    if id in b.approved then Some(b.approved[id]) else None
  }

  ghost predicate OnePending(requests: map<Id, Request>) {
    forall q, q', id :: q in requests && q' in requests && WaitsFor(requests[q], id) && WaitsFor(requests[q'], id) ==>
        q == q'
  }

  ghost predicate DistinctCodes(promos: map<Id, Promo>) {
    forall i, j :: i in promos && j in promos && promos[i].code == promos[j].code ==> i == j
  }

  ghost predicate CodesOk(b: Book) {
    forall id :: id in b.promos ==>
        id < b.nextId && CodeOk(b.promos[id], HasRequest(b.requests, id), ApprovedTerms(b, id))
  }

  ghost predicate RequestsOk(b: Book) {
    forall q :: q in b.requests ==>
      q < b.nextId && b.requests[q].promo in b.promos && RequestOk(b.requests[q], b.promos[b.requests[q].promo])
  }

  ghost predicate BookOk(b: Book) {
    CodesOk(b) && RequestsOk(b) && OnePending(b.requests) && DistinctCodes(b.promos)
  }

  /** All codes but one are as they were, with their requests and approvals. */
  ghost predicate OthersStay(b: Book, c: Book, id: Id) {
    && b.nextId <= c.nextId && id < c.nextId
    && c.promos.Keys == b.promos.Keys + {id}
    && (forall k :: k in b.promos && k != id ==> c.promos[k] == b.promos[k])
    && (forall k :: k in b.promos && k != id ==> HasRequest(c.requests, k) == HasRequest(b.requests, k))
    && (forall k :: k in b.promos && k != id ==> ApprovedTerms(c, k) == ApprovedTerms(b, k))
    && (forall q :: q in c.requests && c.requests[q].promo != id ==> q in b.requests && c.requests[q] == b.requests[q])
  }

  /** A step that changes one code is judged by that code. */
  lemma OneCodeChanges(b: Book, c: Book, id: Id)
    requires BookOk(b) && OthersStay(b, c, id) && OnePending(c.requests) && DistinctCodes(c.promos)
    requires CodeOk(c.promos[id], HasRequest(c.requests, id), ApprovedTerms(c, id))
    requires forall q :: q in c.requests && c.requests[q].promo == id ==>
        q < c.nextId && RequestOk(c.requests[q], c.promos[id])
    ensures BookOk(c)
  {
    hide CodeOk, RequestOk, HasRequest, ApprovedTerms, OnePending, DistinctCodes;
  }

  lemma SameMoneySameLimit(a: Terms, b: Terms)
    requires SameMoney(a, b)
    ensures NeedsApproval(a) == NeedsApproval(b) && MaxCost(a) == MaxCost(b)
  {
  }

  /** Codes keep their names. */
  lemma SameCodes(promos: map<Id, Promo>, id: Id, p: Promo)
    requires DistinctCodes(promos) && id in promos && p.code == promos[id].code
    ensures DistinctCodes(promos[id := p])
  {
  }

  // ----- creating -----

  /** A new code is well formed. */
  lemma NewPromoIsOk(upper: char -> char, inp: PromoInput, now: int)
    requires NewPromo(upper, inp, now).Ok?
    ensures var p := NewPromo(upper, inp, now).value;
            CodeOk(p, p.approval == Pending, None)
  {
    hide Refusal, NeedsApproval, Promos.NewTerms, NormCode, NoMoreThan;
  }

  lemma CreateKeeps(upper: char -> char, b: Book, inp: PromoInput, now: int)
    requires BookOk(b) && (forall id :: id in b.approved ==> id < b.nextId) && Create(upper, b, inp, now).Ok?
    ensures BookOk(Create(upper, b, inp, now).value)
  {
    hide NewPromo, CodeOk, BookOk, WithPromo, CodeInUse;
    NewPromoIsOk(upper, inp, now);
    AddedPromo(b, NewPromo(upper, inp, now).value);
  }

  lemma AddedPromo(b: Book, p: Promo)
    requires BookOk(b) && (forall id :: id in b.approved ==> id < b.nextId)
    requires !CodeInUse(b.promos, p.code) && CodeOk(p, p.approval == Pending, None)
    ensures BookOk(WithPromo(b, p))
  {
    hide CodeOk, RequestOk, MaxCost, OthersStay, OnePending, DistinctCodes, HasRequest;
    var c := WithPromo(b, p);
    NewRequests(b, p);
    NewIsDistinct(b.promos, b.nextId, p);
    OthersStayOnAdding(b, p);
    if p.approval == Pending {
      RequestIsOk(c.requests[b.nextId + 1], p);
    }
    OneCodeChanges(b, c, b.nextId);
  }

  lemma NewIsDistinct(promos: map<Id, Promo>, id: Id, p: Promo)
    requires DistinctCodes(promos) && !CodeInUse(promos, p.code)
    ensures DistinctCodes(promos[id := p])
  {
  }

  lemma OthersStayOnAdding(b: Book, p: Promo)
    requires CodesOk(b) && RequestsOk(b) && OnePending(b.requests)
    ensures OthersStay(b, WithPromo(b, p), b.nextId)
  {
    hide CodeOk, RequestOk, MaxCost, HasRequest;
    NewRequests(b, p);
  }

  lemma RequestIsOk(r: Request, p: Promo)
    requires p.approval == Pending && r.noted == p.terms && r.amount == MaxCost(p.terms)
    ensures RequestOk(r, p)
  {
  }

  lemma NewRequests(b: Book, p: Promo)
    requires RequestsOk(b) && CodesOk(b) && OnePending(b.requests)
    ensures var c := WithPromo(b, p);
            && OnePending(c.requests) && (HasRequest(c.requests, b.nextId) <==> p.approval == Pending)
            && forall k :: k in b.promos ==> HasRequest(c.requests, k) == HasRequest(b.requests, k)
  {
    hide RequestOk, MaxCost, CodeOk;
    var c := WithPromo(b, p);
    forall k
      ensures HasRequest(c.requests, k) == (HasRequest(b.requests, k) || (k == b.nextId && p.approval == Pending))
    {
      if HasRequest(b.requests, k) {
        var q :| q in b.requests && WaitsFor(b.requests[q], k);
        assert WaitsFor(c.requests[q], k);
      } else if k == b.nextId && p.approval == Pending {
        assert WaitsFor(c.requests[b.nextId + 1], k);
      }
    }
  }

  // ----- editing -----

  /** What an edit makes of a code. */
  lemma EditedIs(p: Promo, inp: PromoInput, now: int)
    requires Edited(p, inp, now).Ok?
    ensures var (p', ask) := Edited(p, inp, now).value;
            && p' == p.(terms := p'.terms, active := p'.active, approval := p'.approval)
            && Refusal(p'.terms).None? && ask == AskFor(p, p'.terms)
            && (match ask
                case Propose => p'.approval == Pending && !p'.active
                case Withdraw => p'.approval == Approved
                case Leave => p'.approval == p.approval && (p'.active ==> p.active || p.approval == Approved))
  {
    hide Refusal, AskFor, EditedTerms, EditedExpiry, Over;
  }

  /** The code after an edit, against the request the edit leaves it. */
  lemma EditedIsOk(p: Promo, inp: PromoInput, now: int, waits: bool, approved: Option<Terms>)
    requires CodeOk(p, waits, approved) && Edited(p, inp, now).Ok?
    ensures var (p', ask) := Edited(p, inp, now).value;
            && CodeOk(p', if ask == Propose then true else if ask == Withdraw then false else waits, approved)
            && (ask == Leave && p.approval == Pending ==> NoMoreThan(p'.terms, p.terms) && p'.approval == Pending)
            && (ask == Leave ==> p'.approval == p.approval)
            && (ask == Propose ==> p'.approval == Pending)
            && p'.code == p.code
  {
    hide Edited, Refusal, NeedsApproval, MaxCost;
    EditedIs(p, inp, now);
    var p' := Edited(p, inp, now).value.0;
    if NoMoreThan(p'.terms, p.terms) {
      SameMoneySameLimit(p'.terms, p.terms);
    }
  }

  lemma EditKeeps(b: Book, id: Id, inp: PromoInput, now: int)
    requires BookOk(b) && Edit(b, id, inp, now).Ok?
    ensures BookOk(Edit(b, id, inp, now).value)
  {
    hide Edited, CodeOk, RequestOk, NoMoreThan, BookOk, MaxCost, Proposed, Withdrawn;
    var p := b.promos[id];
    assert CodeOk(p, HasRequest(b.requests, id), ApprovedTerms(b, id)) by {
      CodeOfBook(b, id);
    }
    EditedIsOk(p, inp, now, HasRequest(b.requests, id), ApprovedTerms(b, id));
    var (p', ask) := Edited(p, inp, now).value;
    if ask == Leave {
      LeaveKeeps(b, id, p');
    } else if ask == Propose {
      ProposeKeeps(b, id, p');
    } else {
      WithdrawKeeps(b, id, p');
    }
  }

  lemma CodeOfBook(b: Book, id: Id)
    requires BookOk(b) && id in b.promos
    ensures id < b.nextId && CodeOk(b.promos[id], HasRequest(b.requests, id), ApprovedTerms(b, id))
  {
    hide CodeOk;
  }

  lemma RequestOfBook(b: Book, q: Id)
    requires BookOk(b) && q in b.requests
    ensures b.requests[q].promo in b.promos && RequestOk(b.requests[q], b.promos[b.requests[q].promo])
  {
    hide RequestOk;
  }

  lemma RequestFollows(r: Request, p: Promo, p': Promo)
    requires RequestOk(r, p) && p'.approval == p.approval
    requires p.approval == Pending ==> NoMoreThan(p'.terms, p.terms)
    ensures RequestOk(r, p')
  {
    hide MaxCost, NeedsApproval;
    if r.verdict == Waiting {
      SameMoneySameLimit(p'.terms, p.terms);
    }
  }

  lemma LeaveKeeps(b: Book, id: Id, p': Promo)
    requires BookOk(b) && id in b.promos && p'.code == b.promos[id].code && p'.approval == b.promos[id].approval
    requires p'.approval == Pending ==> NoMoreThan(p'.terms, b.promos[id].terms)
    requires CodeOk(p', HasRequest(b.requests, id), ApprovedTerms(b, id))
    ensures BookOk(b.(promos := b.promos[id := p']))
  {
    hide CodeOk, RequestOk, NoMoreThan, HasRequest, OnePending, DistinctCodes;
    var c := b.(promos := b.promos[id := p']);
    SameCodes(b.promos, id, p');
    forall q | q in c.requests && c.requests[q].promo == id
      ensures RequestOk(c.requests[q], p')
    {
      RequestFollows(b.requests[q], b.promos[id], p');
    }
    OneCodeChanges(b, c, id);
  }

  lemma ProposeKeeps(b: Book, id: Id, p': Promo)
    requires BookOk(b) && id in b.promos && p'.code == b.promos[id].code && p'.approval == Pending
    requires CodeOk(p', true, ApprovedTerms(b, id))
    ensures BookOk(Proposed(b.(promos := b.promos[id := p']), id, p'.terms))
  {
    hide CodeOk, RequestOk, NoMoreThan, DistinctCodes, MaxCost, HasRequest, WaitsFor;
    var c := b.(promos := b.promos[id := p']);
    var d := Proposed(c, id, p'.terms);
    SameCodes(b.promos, id, p');
    ProposedRequests(c, id, p'.terms);
    forall q | q in d.requests && d.requests[q].promo == id
      ensures RequestOk(d.requests[q], p')
    {
      ProposedIsOk(c, id, p', q);
    }
    assert forall k :: k in b.promos && k != id ==> ApprovedTerms(d, k) == ApprovedTerms(b, k);
    OneCodeChanges(b, d, id);
  }

  lemma ProposedIsOk(b: Book, id: Id, p: Promo, q: Id)
    requires p.approval == Pending
    requires var d := Proposed(b, id, p.terms); q in d.requests && d.requests[q].promo == id
    ensures RequestOk(Proposed(b, id, p.terms).requests[q], p)
  {
    hide MaxCost;
    if q in b.requests && !WaitsFor(b.requests[q], id) && q != b.nextId {
    } else if WaitsFor(Proposed(b, id, p.terms).requests[q], id) {
      RequestIsOk(Proposed(b, id, p.terms).requests[q], p);
    }
  }

  lemma ProposedRequests(b: Book, id: Id, t: Terms)
    requires (forall q :: q in b.requests ==> q < b.nextId) && OnePending(b.requests)
    ensures var d := Proposed(b, id, t);
            && OnePending(d.requests) && HasRequest(d.requests, id)
            && (forall k :: k != id ==> HasRequest(d.requests, k) == HasRequest(b.requests, k))
            && (forall q :: q in d.requests ==> q < d.nextId)
            && (forall q :: q in d.requests && d.requests[q].promo != id ==>
                q in b.requests && d.requests[q] == b.requests[q])
  {
    hide MaxCost;
    var d := Proposed(b, id, t);
    forall k
      ensures HasRequest(d.requests, k) == (k == id || HasRequest(b.requests, k))
    {
      if HasRequest(b.requests, k) {
        var q :| q in b.requests && WaitsFor(b.requests[q], k);
        assert WaitsFor(d.requests[q], k);
      } else if k == id {
        assert WaitsFor(d.requests[b.nextId], k);
      }
    }
  }

  lemma WithdrawKeeps(b: Book, id: Id, p': Promo)
    requires BookOk(b) && id in b.promos && p'.code == b.promos[id].code
    requires CodeOk(p', false, ApprovedTerms(b, id))
    ensures BookOk(Withdrawn(b.(promos := b.promos[id := p']), id))
  {
    hide CodeOk, NoMoreThan, DistinctCodes, MaxCost, HasRequest;
    var c := b.(promos := b.promos[id := p']);
    var d := Withdrawn(c, id);
    SameCodes(b.promos, id, p');
    WithdrawnRequests(c, id);
    assert forall k :: k in b.promos && k != id ==> ApprovedTerms(d, k) == ApprovedTerms(b, k);
    OneCodeChanges(b, d, id);
  }

  lemma WithdrawnRequests(b: Book, id: Id)
    requires OnePending(b.requests)
    ensures var d := Withdrawn(b, id);
            && OnePending(d.requests) && !HasRequest(d.requests, id)
            && (forall k :: k != id ==> HasRequest(d.requests, k) == HasRequest(b.requests, k))
  {
    var d := Withdrawn(b, id);
    forall k | k != id
      ensures HasRequest(d.requests, k) == HasRequest(b.requests, k)
    {
      if HasRequest(b.requests, k) {
        var q :| q in b.requests && WaitsFor(b.requests[q], k);
        assert WaitsFor(d.requests[q], k);
      }
    }
  }

  // ----- deciding -----

  lemma DecidedIsOk(p: Promo, approve: bool, approved: Option<Terms>)
    requires CodeOk(p, true, approved)
    ensures CodeOk(p.(approval := if approve then Approved else Rejected, active := approve), false,
                   if approve then Some(p.terms) else approved)
  {
    hide Refusal, NeedsApproval;
  }

  lemma DecidedRequests(requests: map<Id, Request>, q: Id, verdict: Verdict)
    requires OnePending(requests) && q in requests && requests[q].verdict == Waiting && verdict != Waiting
    ensures var after := requests[q := requests[q].(verdict := verdict)];
            && OnePending(after) && !HasRequest(after, requests[q].promo)
            && (forall k :: k != requests[q].promo ==> HasRequest(after, k) == HasRequest(requests, k))
  {
    var after := requests[q := requests[q].(verdict := verdict)];
    assert WaitsFor(requests[q], requests[q].promo);
    forall k | k != requests[q].promo
      ensures HasRequest(after, k) == HasRequest(requests, k)
    {
      if HasRequest(requests, k) {
        var r :| r in requests && WaitsFor(requests[r], k);
        assert WaitsFor(after[r], k);
      }
    }
  }

  lemma DecideKeeps(b: Book, q: Id, approve: bool)
    requires BookOk(b) && Decide(b, q, approve).Ok?
    ensures BookOk(Decide(b, q, approve).value)
  {
    hide CodeOk, NoMoreThan, DistinctCodes, HasRequest, OnePending, MaxCost;
    var d := Decide(b, q, approve).value;
    var id := b.requests[q].promo;
    RequestOfBook(b, q);
    CodeOfBook(b, id);
    assert HasRequest(b.requests, id) by {
      Waits(b.requests, q);
    }
    DecidedIsOk(b.promos[id], approve, ApprovedTerms(b, id));
    DecidedRequests(b.requests, q, if approve then Accepted else Refused);
    SameCodes(b.promos, id, d.promos[id]);
    assert forall r :: r in d.requests && d.requests[r].promo == id && r != q ==> d.requests[r].verdict != Waiting by {
      Alone(b.requests, q);
    }
    OneCodeChanges(b, d, id);
  }

  lemma Waits(requests: map<Id, Request>, q: Id)
    requires q in requests && requests[q].verdict == Waiting
    ensures HasRequest(requests, requests[q].promo)
  {
    assert WaitsFor(requests[q], requests[q].promo);
  }

  lemma Alone(requests: map<Id, Request>, q: Id)
    requires OnePending(requests) && q in requests && requests[q].verdict == Waiting
    ensures forall r :: r in requests && requests[r].promo == requests[q].promo && r != q ==>
        requests[r].verdict != Waiting
  {
    assert WaitsFor(requests[q], requests[q].promo);
    assert forall r :: r in requests && requests[r].promo == requests[q].promo && requests[r].verdict == Waiting ==>
             WaitsFor(requests[r], requests[q].promo);
  }

  // ----- using and releasing -----

  lemma UsedIsOk(p: Promo, o: Order, now: int, waits: bool, approved: Option<Terms>)
    requires CodeOk(p, waits, approved) && o.id !in p.uses && UseRefused(p, o, now).None?
    ensures CodeOk(p.(used := p.used + 1, uses := p.uses[o.id := o.user]), waits, approved)
  {
    hide Refusal, NoMoreThan;
    assert p.uses[o.id := o.user].Keys == p.uses.Keys + {o.id};
  }

  lemma UseKeeps(b: Book, id: Id, o: Order, now: int)
    requires BookOk(b) && Use(b, id, o, now).Ok?
    ensures BookOk(Use(b, id, o, now).value)
  {
    hide CodeOk, RequestOk, NoMoreThan, HasRequest, OnePending, DistinctCodes, UseRefused;
    var c := Use(b, id, o, now).value;
    CodeOfBook(b, id);
    UsedIsOk(b.promos[id], o, now, HasRequest(b.requests, id), ApprovedTerms(b, id));
    SameCodes(b.promos, id, c.promos[id]);
    forall q | q in c.requests && c.requests[q].promo == id
      ensures RequestOk(c.requests[q], c.promos[id])
    {
      RequestOfBook(b, q);
      SameTermsFollow(b.requests[q], b.promos[id], c.promos[id]);
    }
    OneCodeChanges(b, c, id);
  }

  lemma SameTermsFollow(r: Request, p: Promo, p': Promo)
    requires RequestOk(r, p) && p'.approval == p.approval && p'.terms == p.terms
    ensures RequestOk(r, p')
  {
    hide MaxCost, NoMoreThan;
  }

  lemma ReleasedIsOk(p: Promo, o: OrderId, waits: bool, approved: Option<Terms>)
    requires CodeOk(p, waits, approved)
    ensures CodeOk(ReleasedPromo(p, o), waits, approved)
  {
    hide Refusal, NeedsApproval, NoMoreThan;
    if o in p.uses {
      assert p.uses.Keys == (p.uses - {o}).Keys + {o};
    }
  }

  lemma ReleaseKeeps(b: Book, o: OrderId)
    requires BookOk(b)
    ensures BookOk(Release(b, o))
  {
    hide CodeOk, RequestOk, HasRequest, OnePending;
    var c := Release(b, o);
    forall id | id in c.promos
      ensures CodeOk(c.promos[id], HasRequest(c.requests, id), ApprovedTerms(c, id))
    {
      ReleasedIsOk(b.promos[id], o, HasRequest(b.requests, id), ApprovedTerms(b, id));
    }
    forall q | q in c.requests
      ensures RequestOk(c.requests[q], c.promos[c.requests[q].promo])
    {
      RequestOfBook(b, q);
      SameTermsFollow(b.requests[q], b.promos[b.requests[q].promo], c.promos[b.requests[q].promo]);
    }
  }

  lemma StepKeeps(upper: char -> char, b: Book, s: Step, now: int)
    requires BookOk(b) && HistoryOk(b)
    ensures BookOk(Do(upper, b, s, now))
  {
    hide BookOk, Create, Edit, Decide, Use, Release;
    if s.CreateIt? && Create(upper, b, s.inp, now).Ok? {
      CreateKeeps(upper, b, s.inp, now);
    } else if s.EditIt? && Edit(b, s.id, s.inp, now).Ok? {
      EditKeeps(b, s.id, s.inp, now);
    } else if s.DecideIt? && Decide(b, s.request, s.approve).Ok? {
      DecideKeeps(b, s.request, s.approve);
    } else if s.UseIt? && Use(b, s.id, s.order, now).Ok? {
      UseKeeps(b, s.id, s.order, now);
    } else if s.ReleaseIt? {
      ReleaseKeeps(b, s.released);
    }
  }

  /** Only codes were approved. */
  predicate HistoryOk(b: Book) {
    && (forall id :: id in b.approved ==> id in b.promos)
    && forall id :: id in b.promos ==> id < b.nextId
  }

  lemma StepKeepsHistory(upper: char -> char, b: Book, s: Step, now: int)
    requires HistoryOk(b)
    ensures HistoryOk(Do(upper, b, s, now))
  {
    hide NewPromo, Edited, UseRefused, CodeInUse, HasRequest;
  }

  /** A run: books joined by steps, each at its instant, from empty tables. */
  ghost predicate PromoRun(upper: char -> char, books: seq<Book>, steps: seq<(Step, int)>) {
    && |books| == |steps| + 1
    && books[0] == Book(map[], map[], 0, map[])
    && forall i :: 0 <= i < |steps| ==> books[i + 1] == Do(upper, books[i], steps[i].0, steps[i].1)
  }

  lemma {:induction false} RunKeepsBook(upper: char -> char, books: seq<Book>, steps: seq<(Step, int)>, n: nat)
    requires PromoRun(upper, books, steps) && n < |books|
    ensures BookOk(books[n]) && HistoryOk(books[n])
  {
    hide Do, CodeOk, RequestOk;
    if n > 0 {
      RunKeepsBook(upper, books, steps, n - 1);
      StepKeepsHistory(upper, books[n - 1], steps[n - 1].0, steps[n - 1].1);
      StepKeeps(upper, books[n - 1], steps[n - 1].0, steps[n - 1].1);
    }
  }

  // ---------------------------------------------------------------------------------------
  // The main results
  // ---------------------------------------------------------------------------------------

  /** In every run: a code serves only while its approval is ok; it waits for finance exactly while it has a
      pending request, and only one; and above the limit it serves only with the gift finance last approved,
      to the same people or fewer. */
  lemma ServesOnlyApproved(upper: char -> char, books: seq<Book>, steps: seq<(Step, int)>, n: nat, id: Id)
    requires PromoRun(upper, books, steps) && n < |books| && id in books[n].promos
    ensures var b, p := books[n], books[n].promos[id];
            && (p.active ==> p.approval == Approved)
            && (p.approval == Pending <==> HasRequest(b.requests, id))
            && (p.active && NeedsApproval(p.terms) ==> id in b.approved && NoMoreThan(p.terms, b.approved[id]))
  {
    hide Do, NeedsApproval, Refusal, NoMoreThan, HasRequest, BookOk;
    RunKeepsBook(upper, books, steps, n);
    CodeOfBook(books[n], id);
  }

  // ----- reading a request and deciding it later -----

  predicate IsWaiting(b: Book, q: Id) {
    q in b.requests && b.requests[q].verdict == Waiting
  }

  /** A request, if there is one with the id. */
  function RequestAt(b: Book, q: Id): Option<Request> {
    if q in b.requests then Some(b.requests[q]) else None
  }

  /** The code it is for. */
  function PromoOf(b: Book, q: Id): Option<Id> {
    if q in b.requests then Some(b.requests[q].promo) else None
  }

  /** An edit proposes the code of a waiting request again and writes something else into the request, which keeps its
      id (promos.go:496-502). */
  predicate Rewrites(b: Book, s: Step, now: int, q: Id) {
    && IsWaiting(b, q) && s.EditIt? && s.id == b.requests[q].promo && s.id in b.promos
    && var e := Edited(b.promos[s.id], s.inp, now);
       && e.Ok? && e.value.1.Propose?
       && b.requests[q] != b.requests[q].(amount := MaxCost(e.value.0.terms), noted := e.value.0.terms)
  }

  /** A request still waiting after a step was waiting before it, for the same code, and is the same request exactly
      unless the step rewrites it. */
  lemma StepOnRequest(upper: char -> char, b: Book, s: Step, now: int, q: Id)
    requires q < b.nextId && IsWaiting(Do(upper, b, s, now), q)
    ensures IsWaiting(b, q) && b.nextId <= Do(upper, b, s, now).nextId
    ensures PromoOf(Do(upper, b, s, now), q) == PromoOf(b, q)
    ensures RequestAt(Do(upper, b, s, now), q) == RequestAt(b, q) <==> !Rewrites(b, s, now, q)
  {
    hide NewPromo, Edited, UseRefused, CodeInUse, NewOrder, MaxCost, Create, Edit;
    if s.CreateIt? {
      CreateOnRequest(upper, b, s.inp, now, q);
    } else if s.EditIt? {
      EditOnRequest(b, s.id, s.inp, now, q);
    }
  }

  lemma CreateOnRequest(upper: char -> char, b: Book, inp: PromoInput, now: int, q: Id)
    requires q < b.nextId
    ensures var c := OrSame(Create(upper, b, inp, now), b);
            && b.nextId <= c.nextId && IsWaiting(c, q) == IsWaiting(b, q)
            && (IsWaiting(c, q) ==> c.requests[q] == b.requests[q])
  {
    hide NewPromo, CodeInUse, MaxCost;
  }

  lemma EditOnRequest(b: Book, id: Id, inp: PromoInput, now: int, q: Id)
    requires q < b.nextId && IsWaiting(OrSame(Edit(b, id, inp, now), b), q)
    ensures var c := OrSame(Edit(b, id, inp, now), b);
            && IsWaiting(b, q) && b.nextId <= c.nextId && c.requests[q].promo == b.requests[q].promo
            && (c.requests[q] == b.requests[q] <==> !Rewrites(b, EditIt(id, inp), now, q))
  {
    hide Edited, MaxCost, HasRequest;
    if Edit(b, id, inp, now).Ok? {
      var (p, ask) := Edited(b.promos[id], inp, now).value;
      if ask.Propose? && b.requests[q].promo == id {
        assert HasRequest(b.requests, id) by {
          WaitingIsRequest(b, q);
        }
      }
    }
  }

  lemma WaitingIsRequest(b: Book, q: Id)
    requires IsWaiting(b, q)
    ensures HasRequest(b.requests, b.requests[q].promo)
  {
    assert WaitsFor(b.requests[q], b.requests[q].promo);
  }

  /** From its reading on, a request that is still waiting is for the same code, and is as it was read all along
      exactly when no step between rewrites it. */
  lemma {:induction false} ReadStaysIff(
    upper: char -> char, books: seq<Book>, steps: seq<(Step, int)>, m: nat, n: nat, q: Id)
    requires PromoRun(upper, books, steps) && m <= n < |books| && q < books[m].nextId && IsWaiting(books[n], q)
    ensures books[m].nextId <= books[n].nextId
    ensures forall i :: m <= i <= n ==> IsWaiting(books[i], q) && PromoOf(books[i], q) == PromoOf(books[m], q)
    ensures (forall i :: m <= i <= n ==> RequestAt(books[i], q) == RequestAt(books[m], q)) <==>
            (forall i :: m <= i < n ==> !Rewrites(books[i], steps[i].0, steps[i].1, q))
  {
    hide Do, Rewrites, IsWaiting, RequestAt, PromoOf;
    if m < n {
      IdsGrow(upper, books, steps, m, n - 1);
      StepOnRequest(upper, books[n - 1], steps[n - 1].0, steps[n - 1].1, q);
      ReadStaysIff(upper, books, steps, m, n - 1, q);
      assert RequestAt(books[n], q) == RequestAt(books[n - 1], q) <==>
          !Rewrites(books[n - 1], steps[n - 1].0, steps[n - 1].1, q);
    }
  }

  lemma NextIdGrows(upper: char -> char, b: Book, s: Step, now: int)
    ensures b.nextId <= Do(upper, b, s, now).nextId
  {
    hide NewPromo, Edited, UseRefused, CodeInUse, NewOrder, MaxCost, HasRequest;
  }

  lemma {:induction false} IdsGrow(upper: char -> char, books: seq<Book>, steps: seq<(Step, int)>, m: nat, n: nat)
    requires PromoRun(upper, books, steps) && m <= n < |books|
    ensures books[m].nextId <= books[n].nextId
  {
    hide Do;
    if m < n {
      IdsGrow(upper, books, steps, m, n - 1);
      NextIdGrows(upper, books[n - 1], steps[n - 1].0, steps[n - 1].1);
    }
  }

  /** What finance approves is what the request was written from when it is decided, or the same gift to fewer people;
      and that is what finance read before, at any time, when no edit has rewritten the request since. */
  lemma FinanceApprovesWhatItRead(
    upper: char -> char, books: seq<Book>, steps: seq<(Step, int)>, m: nat, n: nat, q: Id)
    requires PromoRun(upper, books, steps) && m <= n < |books|
    requires IsWaiting(books[m], q) && IsWaiting(books[n], q)
    ensures var b, r, read := books[n], books[n].requests[q], books[m].requests[q];
            && r.promo == read.promo && r.promo in b.promos && Decide(b, q, true).Ok?
            && var approved := Decide(b, q, true).value.approved[r.promo];
               && NoMoreThan(approved, r.noted) && r.amount == MaxCost(approved)
               && ((forall i :: m <= i < n ==> !Rewrites(books[i], steps[i].0, steps[i].1, q)) ==>
                     NoMoreThan(approved, read.noted) && read.amount == MaxCost(approved))
  {
    hide Do, NeedsApproval, Refusal, NoMoreThan, MaxCost, HasRequest, BookOk, Rewrites;
    RunKeepsBook(upper, books, steps, n);
    RequestOfBook(books[n], q);
    RunKeepsBook(upper, books, steps, m);
    RequestIsOld(books[m], q);
    ReadStaysIff(upper, books, steps, m, n, q);
  }

  /** Free deliveries, above the limit by the number of uses. */
  function Deliveries(raw: string, uses: int): PromoInput {
    PromoInput(Some(raw), Some("free_delivery"), None, None, None, None, None, Some(uses), NoDate, None, false, false)
  }

  function DeliveryTerms(uses: int): Terms {
    Terms("free_delivery", 0, None, 0, Some(uses), None, false, true)
  }

  lemma DeliveriesCreated(upper: char -> char, raw: string, now: int)
    requires NormCode(upper, raw).Ok?
    ensures NewPromo(upper, Deliveries(raw, 51), now)
            == Ok(Promo(NormCode(upper, raw).value, DeliveryTerms(51), false, Pending, 0, map[]))
  {
    hide NormCode;
  }

  lemma DeliveriesEdited(p: Promo, raw: string, now: int)
    requires p.terms == DeliveryTerms(51) && p.approval == Pending
    ensures Edited(p, Deliveries(raw, 100), now) == Ok((p.(terms := DeliveryTerms(100), active := false), Propose))
  {
  }

  /** It happens: a code of 51 uses is proposed and read, edited to 100 uses, and approved under the request that was
      read: 100 uses are approved. */
  lemma StaleApproval(upper: char -> char, raw: string) returns (books: seq<Book>, steps: seq<(Step, int)>, q: Id)
    requires NormCode(upper, raw).Ok?
    ensures PromoRun(upper, books, steps) && |books| == 3 && IsWaiting(books[1], q) && IsWaiting(books[2], q)
    ensures books[1].requests[q].noted == DeliveryTerms(51) && Decide(books[2], q, true).Ok?
    ensures var approved := Decide(books[2], q, true).value.approved;
            books[1].requests[q].promo in approved && approved[books[1].requests[q].promo] == DeliveryTerms(100)
  {
    hide NormCode, NewPromo, Edited, DeliveryTerms, Deliveries, MaxCost;
    DeliveriesCreated(upper, raw, 0);
    var empty := Book(map[], map[], 0, map[]);
    var p := NewPromo(upper, Deliveries(raw, 51), 0).value;
    var made := WithPromo(empty, p);
    assert Do(upper, empty, CreateIt(Deliveries(raw, 51)), 0) == made;
    DeliveriesEdited(p, raw, 0);
    var edited := Do(upper, made, EditIt(0, Deliveries(raw, 100)), 0);
    assert WaitsFor(made.requests[1], 0) && HasRequest(made.requests, 0);
    assert edited.promos[0].terms == DeliveryTerms(100) && IsWaiting(edited, 1);
    books, steps := [empty, made, edited], [(CreateIt(Deliveries(raw, 51)), 0), (EditIt(0, Deliveries(raw, 100)), 0)];
    q := 1;
  }

  lemma RequestIsOld(b: Book, q: Id)
    requires BookOk(b) && q in b.requests
    ensures q < b.nextId
  {
    hide RequestOk, CodeOk;
  }

  /** A percentage or amount that finance did not approve, or no longer needs to, takes at most a fifth of the
      order and is used at most fifty times; one above the limit takes what the approved terms take, and is
      used no more often than they allow. */
  lemma UseIsBounded(upper: char -> char, books: seq<Book>, steps: seq<(Step, int)>, n: nat, id: Id, o: Order, now: int)
    requires PromoRun(upper, books, steps) && n < |books| && Use(books[n], id, o, now).Ok?
    ensures var b, p := books[n], books[n].promos[id];
            var cut, after := Cut(p.terms, o.subtotal, o.fee), Use(b, id, o, now).value.promos[id];
            if id !in b.approved || !NeedsApproval(p.terms) then
              && after.used <= FREE_USES
              && (p.terms.kind == "percent" || p.terms.kind == "fixed" ==>
                  0 <= cut.0 && cut.0 * 100 <= o.subtotal * FREE_PERCENT)
            else
              && cut == Cut(b.approved[id], o.subtotal, o.fee)
              && (b.approved[id].maxUses.Some? ==> after.used <= b.approved[id].maxUses.value)
  {
    hide Do, Cut, Refusal, HasRequest, BookOk;
    RunKeepsBook(upper, books, steps, n);
    CodeOfBook(books[n], id);
    var p := books[n].promos[id];
    if id !in books[n].approved || !NeedsApproval(p.terms) {
      if p.terms.kind == "percent" || p.terms.kind == "fixed" {
        FreeCutIsSmall(p, o, now);
      }
    } else {
      SameMoneySameCut(p.terms, books[n].approved[id], o);
    }
  }

  lemma SameMoneySameCut(a: Terms, b: Terms, o: Order)
    requires SameMoney(a, b)
    ensures Cut(a, o.subtotal, o.fee) == Cut(b, o.subtotal, o.fee)
  {
  }
}
