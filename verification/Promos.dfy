/** Discount codes: creating and editing them, the finance decision, and their use in orders
    (backend/internal/catalog/promos.go, the decision in backend/internal/server/promos_handlers.go,
    and validatePromo and promoCut in backend/internal/orders/service.go). */
module Promos {
  import opened Common
  import opened Text

  type Id = nat
  type OrderId = int
  type UserId = int

  const FREE_PERCENT := 20
  const FREE_USES := 50

  datatype Approval = Approved | Pending | Rejected

  datatype PromoStatus = Active | Expired | Exhausted | Paused | PendingApproval | WasRejected

  datatype PromoError =
    | BadCode | BadKind | BadPercent | CapRequired | BadAmount | Negative | AlreadyExpired | BadDate
    | CodeTaken | NotFound | ActivateExpired | NeedsApprovalFirst | AlreadyDecided
    | Invalid | AllUsed | MinOrder | AlreadyUsed | FirstOrderOnly

  /** promoState: what a code gives, to whom and until when. */
  datatype Terms = Terms(
    kind: string, value: int, maxDiscount: Option<int>, minOrder: int, maxUses: Option<int>,
    expiresAt: Option<int>, firstOnly: bool, oncePerUser: bool)

  /** A row of promo_codes; `uses` are its rows of promo_redemptions, by order. */
  datatype Promo = Promo(
    code: string, terms: Terms, active: bool, approval: Approval, used: int, uses: map<OrderId, UserId>)

  datatype Verdict = Waiting | Accepted | Refused

  /** A row of promo_approvals; `noted` are the terms its note was written from. */
  datatype Request = Request(promo: Id, verdict: Verdict, amount: int, noted: Terms)

  datatype DateIn = NoDate | Malformed | At(time: int)

  datatype PromoInput = PromoInput(
    code: Option<string>, kind: Option<string>, value: Option<int>, maxDiscount: Option<int>, minOrder: Option<int>,
    firstOnly: Option<bool>, oncePerUser: Option<bool>, maxUses: Option<int>, expiry: DateIn,
    active: Option<bool>, clearExpiry: bool, clearMaxUses: bool)

  // ---------------------------------------------------------------------------------------
  // Pure decisions
  // ---------------------------------------------------------------------------------------

  predicate Over(expiresAt: Option<int>, now: int) {
    expiresAt.Some? && expiresAt.value <= now
  }

  predicate UsedUp(maxUses: Option<int>, used: int) {
    maxUses.Some? && used >= maxUses.value
  }

  function StatusAt(p: Promo, now: int): PromoStatus {
    if p.approval == Pending then PendingApproval
    else if p.approval == Rejected then WasRejected
    else if Over(p.terms.expiresAt, now) then Expired
    else if UsedUp(p.terms.maxUses, p.used) then Exhausted
    else if !p.active then Paused
    else Active
  }

  /** PromoLiveSQL. */
  predicate Live(p: Promo, now: int) {
    && p.active && p.approval == Approved
    && (p.terms.expiresAt.None? || p.terms.expiresAt.value > now)
    && (p.terms.maxUses.None? || p.used < p.terms.maxUses.value)
  }

  function Refusal(t: Terms): Option<PromoError> {
    if t.value < 0 || t.minOrder < 0 || (t.maxUses.Some? && t.maxUses.value < 1) then Some(Negative)
    else if t.kind == "percent" then
      if t.value < 1 || t.value > 90 then Some(BadPercent)
      else if t.maxDiscount.None? || t.maxDiscount.value <= 0 then Some(CapRequired)
      else None
    else if t.kind == "fixed" then if t.value < 1 then Some(BadAmount) else None
    else if t.kind == "free_delivery" then None
    else Some(BadKind)
  }

  /** Above what content may give on its own. */
  predicate NeedsApproval(t: Terms) {
    || t.maxUses.None? || t.maxUses.value > FREE_USES
    || (t.kind == "percent" && t.value > FREE_PERCENT)
    || (t.kind == "fixed" && t.value * 100 > t.minOrder * FREE_PERCENT)
  }

  /** The most a code can cost, zero when it is not known. */
  function MaxCost(t: Terms): int {
    if t.maxUses.None? then 0
    else if t.kind == "percent" && t.maxDiscount.Some? then t.maxDiscount.value * t.maxUses.value
    else if t.kind == "fixed" then t.value * t.maxUses.value
    else 0
  }

  predicate CodeChar(c: char) {
    c == '-' || c == '_' || 'A' <= c <= 'Z' || 'a' <= c <= 'z' || '0' <= c <= '9'
  }

  /** normCode; `upper` is the upper case of one rune. */
  function NormCode(upper: char -> char, raw: string): (r: Result<string, PromoError>)
    ensures r.Ok? ==> 3 <= |r.value| <= 32 && forall i :: 0 <= i < |r.value| ==> CodeChar(r.value[i])
  {
    var t := TrimSpace(raw);
    var c := seq(|t|, i requires 0 <= i < |t| => upper(t[i]));
    if 3 <= |c| <= 32 && forall i :: 0 <= i < |c| ==> CodeChar(c[i]) then Ok(c) else Err(BadCode)
  }

  /** promoCut: the discount and the delivery fee of an order. */
  function Cut(t: Terms, subtotal: int, fee: int): (int, int) {
    var raw :=
      if t.kind == "percent" then
        var part := if subtotal * t.value >= 0 then subtotal * t.value / 100 else -(-(subtotal * t.value) / 100);
        if t.maxDiscount.Some? && part > t.maxDiscount.value then t.maxDiscount.value else part
      else if t.kind == "fixed" then t.value
      else 0;
    var capped := if raw < subtotal then raw else subtotal;
    (if capped < 0 then 0 else capped, if t.kind == "free_delivery" then 0 else fee)
  }

  // ---------------------------------------------------------------------------------------
  // Creating
  // ---------------------------------------------------------------------------------------

  function NewTerms(inp: PromoInput, kind: string): Terms {
    Terms(kind, if kind == "free_delivery" then 0 else Or(inp.value, 0),
          if kind == "percent" then inp.maxDiscount else None, Or(inp.minOrder, 0), inp.maxUses,
          if inp.expiry.At? then Some(inp.expiry.time) else None,
          Or(inp.firstOnly, false), Or(inp.oncePerUser, true))
  }

  /** The row a creation inserts, or why it does not. */
  function NewPromo(upper: char -> char, inp: PromoInput, now: int): Result<Promo, PromoError> {
    if inp.code.None? || inp.kind.None? then Err(BadCode)
    else
      var code := NormCode(upper, inp.code.value);
      var t := NewTerms(inp, inp.kind.value);
      if code.Err? then Err(code.error)
      else if inp.expiry.Malformed? then Err(BadDate)
      else if Over(t.expiresAt, now) then Err(AlreadyExpired)
      else if Refusal(t).Some? then Err(Refusal(t).value)
      else if NeedsApproval(t) then Ok(Promo(code.value, t, false, Pending, 0, map[]))
      else Ok(Promo(code.value, t, Or(inp.active, true), Approved, 0, map[]))
  }

  // ----- what a creation makes, field by field -----

  /** Terms a code may have. */
  predicate TermsAllowed(t: Terms) {
    && t.value >= 0 && t.minOrder >= 0 && (t.maxUses.Some? ==> t.maxUses.value >= 1)
    && (t.kind == "percent" || t.kind == "fixed" || t.kind == "free_delivery")
    && (t.kind == "percent" ==> 1 <= t.value <= 90 && t.maxDiscount.Some? && t.maxDiscount.value > 0)
    && (t.kind == "fixed" ==> t.value >= 1)
  }

  lemma RefusalMeans(t: Terms)
    ensures Refusal(t).None? <==> TermsAllowed(t)
  {
  }

  /** The text of a code: as it was sent, without blanks around it, in upper case. */
  predicate CodeText(upper: char -> char, raw: string, code: string) {
    var t := TrimSpace(raw);
    && 3 <= |code| <= 32 && |code| == |t|
    && forall i :: 0 <= i < |code| ==> code[i] == upper(t[i]) && CodeChar(code[i])
  }

  /** The terms of a new code: what is sent, a free delivery without a value, a cap on a percentage only, once per
      user unless it is said otherwise. */
  predicate TermsSent(inp: PromoInput, t: Terms) {
    && inp.kind == Some(t.kind)
    && t.value == (if t.kind != "free_delivery" && inp.value.Some? then inp.value.value else 0)
    && t.maxDiscount == (if t.kind == "percent" then inp.maxDiscount else None)
    && t.minOrder == (if inp.minOrder.Some? then inp.minOrder.value else 0)
    && t.maxUses == inp.maxUses
    && t.expiresAt == (if inp.expiry.At? then Some(inp.expiry.time) else None)
    && (t.firstOnly <==> inp.firstOnly == Some(true)) && (t.oncePerUser <==> inp.oncePerUser != Some(false))
  }

  /** A new code: unused; above the limit it waits, switched off, and otherwise it is on unless it is said off. */
  predicate CodeMade(upper: char -> char, inp: PromoInput, now: int, p: Promo) {
    && inp.code.Some? && CodeText(upper, inp.code.value, p.code)
    && TermsSent(inp, p.terms) && TermsAllowed(p.terms) && p.used == 0 && p.uses == map[]
    && !inp.expiry.Malformed? && (inp.expiry.At? ==> inp.expiry.time > now)
    && (if NeedsApproval(p.terms) then p.approval == Pending && !p.active
        else p.approval == Approved && (p.active <==> inp.active != Some(false)))
  }

  lemma NormCodeMeans(upper: char -> char, raw: string)
    ensures NormCode(upper, raw).Ok? ==> CodeText(upper, raw, NormCode(upper, raw).value)
    ensures forall code :: CodeText(upper, raw, code) ==> NormCode(upper, raw) == Ok(code)
  {
    hide TrimSpace, CodeChar;
    var t := TrimSpace(raw);
    forall code | CodeText(upper, raw, code)
      ensures NormCode(upper, raw) == Ok(code)
    {
      assert code == seq(|t|, i requires 0 <= i < |t| => upper(t[i]));
    }
  }

  /** Such a code is made exactly when there is one, and only one. */
  lemma NewPromoMeans(upper: char -> char, inp: PromoInput, now: int)
    ensures NewPromo(upper, inp, now).Ok? ==> CodeMade(upper, inp, now, NewPromo(upper, inp, now).value)
    ensures forall p :: CodeMade(upper, inp, now, p) ==> NewPromo(upper, inp, now) == Ok(p)
  {
    hide NormCode, CodeText, Refusal, TermsAllowed, NeedsApproval;
    if inp.code.Some? && inp.kind.Some? {
      NormCodeMeans(upper, inp.code.value);
      RefusalMeans(NewTerms(inp, inp.kind.value));
    }
    forall p | CodeMade(upper, inp, now, p)
      ensures NewPromo(upper, inp, now) == Ok(p)
    {
      assert p.terms == NewTerms(inp, inp.kind.value);
    }
  }

  // ---------------------------------------------------------------------------------------
  // Editing
  // ---------------------------------------------------------------------------------------

  /** What an edit does to the pending request of its code. */
  datatype Ask = Leave | Propose | Withdraw

  /** The money terms and the audience after an edit. */
  function EditedTerms(t: Terms, inp: PromoInput): Terms {
    t.(value := if inp.value.Some? && t.kind != "free_delivery" then inp.value.value else t.value,
       maxDiscount := if inp.maxDiscount.Some? && t.kind == "percent" then inp.maxDiscount else t.maxDiscount,
       minOrder := Or(inp.minOrder, t.minOrder),
       maxUses := if inp.clearMaxUses then None else if inp.maxUses.Some? then inp.maxUses else t.maxUses,
       firstOnly := Or(inp.firstOnly, t.firstOnly),
       oncePerUser := Or(inp.oncePerUser, t.oncePerUser))
  }

  /** The same gift: kind, value, cap, minimum and number of uses. */
  predicate SameMoney(a: Terms, b: Terms) {
    a.kind == b.kind && a.value == b.value && a.maxDiscount == b.maxDiscount && a.minOrder == b.minOrder
    && a.maxUses == b.maxUses
  }

  /** Whoever may use a may use b. */
  predicate Within(a: Terms, b: Terms) {
    (b.firstOnly ==> a.firstOnly) && (b.oncePerUser ==> a.oncePerUser)
  }

  /** The same gift to the same people or fewer. */
  predicate NoMoreThan(a: Terms, b: Terms) {
    SameMoney(a, b) && Within(a, b)
  }

  /** The expiry after an edit; only a changed one is checked. */
  function EditedExpiry(t: Terms, inp: PromoInput, now: int): Result<Option<int>, PromoError> {
    if inp.clearExpiry then Ok(None)
    else if inp.expiry.Malformed? then Err(BadDate)
    else if inp.expiry.NoDate? || t.expiresAt == Some(inp.expiry.time) then Ok(t.expiresAt)
    else if inp.expiry.time <= now then Err(AlreadyExpired)
    else Ok(Some(inp.expiry.time))
  }

  function AskFor(p: Promo, t: Terms): Ask {
    if NoMoreThan(t, p.terms) then Leave
    else if NeedsApproval(t) then Propose
    else if p.approval != Approved then Withdraw
    else Leave
  }

  /** The row an edit writes and what becomes of the request, or why it is refused. */
  function Edited(p: Promo, inp: PromoInput, now: int): Result<(Promo, Ask), PromoError> {
    var expiry := EditedExpiry(p.terms, inp, now);
    if expiry.Err? then Err(expiry.error)
    else
      var t := EditedTerms(p.terms, inp).(expiresAt := expiry.value);
      var ask := AskFor(p, t);
      var approval := (match ask case Propose => Pending case Withdraw => Approved case Leave => p.approval);
      if Refusal(t).Some? then Err(Refusal(t).value)
      else if inp.active == Some(true) && Over(t.expiresAt, now) then Err(ActivateExpired)
      else if ask.Propose? then Ok((p.(terms := t, active := false, approval := Pending), ask))
      else if inp.active == Some(true) && approval != Approved then Err(NeedsApprovalFirst)
      else Ok((p.(terms := t, active := Or(inp.active, p.active), approval := approval), ask))
  }

  // ----- what an edit leaves, field by field -----

  /** The gift changed, or more people may have it. */
  predicate MoreGiven(was: Terms, now: Terms) {
    || now.value != was.value || now.maxDiscount != was.maxDiscount || now.minOrder != was.minOrder
    || now.maxUses != was.maxUses || (was.firstOnly && !now.firstOnly) || (was.oncePerUser && !now.oncePerUser)
  }

  /** The terms after an edit: what is sent, where it applies, and the rest as it was. */
  predicate TermsEdited(was: Terms, inp: PromoInput, now: int, t: Terms) {
    && t.kind == was.kind
    && t.value == (if was.kind != "free_delivery" && inp.value.Some? then inp.value.value else was.value)
    && t.maxDiscount == (if was.kind == "percent" && inp.maxDiscount.Some? then inp.maxDiscount else was.maxDiscount)
    && t.minOrder == (if inp.minOrder.Some? then inp.minOrder.value else was.minOrder)
    && t.maxUses == (if inp.clearMaxUses then None else if inp.maxUses.Some? then inp.maxUses else was.maxUses)
    && t.firstOnly == (if inp.firstOnly.Some? then inp.firstOnly.value else was.firstOnly)
    && t.oncePerUser == (if inp.oncePerUser.Some? then inp.oncePerUser.value else was.oncePerUser)
    && (if inp.clearExpiry then t.expiresAt == None
        else
          && !inp.expiry.Malformed?
          && t.expiresAt == (if inp.expiry.At? then Some(inp.expiry.time) else was.expiresAt)
          && (t.expiresAt != was.expiresAt ==> t.expiresAt.value > now))
  }

  /** The row after an edit. More given above the limit waits for approval, switched off; more given below it needs
      none; and otherwise the code is on or off as sent, on only when it is approved and not over. */
  predicate CodeEdited(p: Promo, inp: PromoInput, now: int, q: Promo, ask: Ask) {
    var more := MoreGiven(p.terms, q.terms);
    && q.code == p.code && q.used == p.used && q.uses == p.uses
    && TermsEdited(p.terms, inp, now, q.terms) && TermsAllowed(q.terms)
    && (inp.active == Some(true) ==> !Over(q.terms.expiresAt, now))
    && (if more && NeedsApproval(q.terms) then ask == Propose && q.approval == Pending && !q.active
        else
          && (if more && p.approval != Approved then ask == Withdraw && q.approval == Approved
              else ask == Leave && q.approval == p.approval)
          && q.active == (if inp.active.Some? then inp.active.value else p.active)
          && (inp.active == Some(true) ==> q.approval == Approved))
  }

  lemma MoreMeans(was: Terms, now: Terms)
    requires now.kind == was.kind
    ensures MoreGiven(was, now) <==> !NoMoreThan(now, was)
  {
  }

  /** An edit is accepted exactly when there is such a row, and writes it. */
  lemma EditedMeans(p: Promo, inp: PromoInput, now: int)
    ensures Edited(p, inp, now).Ok? ==>
              CodeEdited(p, inp, now, Edited(p, inp, now).value.0, Edited(p, inp, now).value.1)
    ensures forall q, ask :: CodeEdited(p, inp, now, q, ask) ==> Edited(p, inp, now) == Ok((q, ask))
  {
    hide Refusal, NeedsApproval, TermsAllowed, MoreGiven, NoMoreThan;
    var expiry := EditedExpiry(p.terms, inp, now);
    if expiry.Ok? {
      var t := EditedTerms(p.terms, inp).(expiresAt := expiry.value);
      RefusalMeans(t);
      MoreMeans(p.terms, t);
    }
    forall q, ask | CodeEdited(p, inp, now, q, ask)
      ensures Edited(p, inp, now) == Ok((q, ask))
    {
      assert expiry == Ok(q.terms.expiresAt);
      assert q.terms == EditedTerms(p.terms, inp).(expiresAt := expiry.value);
    }
  }

  method EditMoney(before: Terms, inp: PromoInput) returns (st: Terms, money: bool)
    ensures st == EditedTerms(before, inp).(firstOnly := before.firstOnly, oncePerUser := before.oncePerUser)
    ensures money <==> !SameMoney(st, before)
  {
    st, money := before, false;
    if inp.value.Some? && st.kind != "free_delivery" && inp.value.value != st.value {
      st, money := st.(value := inp.value.value), true;
    }
    if inp.maxDiscount.Some? && st.kind == "percent"
       && (st.maxDiscount.None? || inp.maxDiscount.value != st.maxDiscount.value) {
      st, money := st.(maxDiscount := inp.maxDiscount), true;
    }
    if inp.minOrder.Some? && inp.minOrder.value != st.minOrder {
      st, money := st.(minOrder := inp.minOrder.value), true;
    }
    if inp.clearMaxUses {
      if st.maxUses.Some? {
        st, money := st.(maxUses := None), true;
      }
    } else if inp.maxUses.Some? && (st.maxUses.None? || inp.maxUses.value != st.maxUses.value) {
      st, money := st.(maxUses := inp.maxUses), true;
    }
  }

  /** The edit, one field after the other; `money` says that the gift changed or its audience grew. */
  method EditTerms(before: Terms, inp: PromoInput) returns (st: Terms, money: bool)
    ensures st == EditedTerms(before, inp)
    ensures money <==> !NoMoreThan(st, before)
  {
    st, money := EditMoney(before, inp);
    if inp.firstOnly.Some? && inp.firstOnly.value != st.firstOnly {
      if st.firstOnly {
        money := true;
      }
      st := st.(firstOnly := inp.firstOnly.value);
    }
    if inp.oncePerUser.Some? && inp.oncePerUser.value != st.oncePerUser {
      if st.oncePerUser {
        money := true;
      }
      st := st.(oncePerUser := inp.oncePerUser.value);
    }
  }

  method EditExpiry(before: Terms, inp: PromoInput, now: int) returns (r: Result<Option<int>, PromoError>)
    ensures r == EditedExpiry(before, inp, now)
  {
    if inp.clearExpiry {
      return Ok(None);
    }
    if inp.expiry.Malformed? {
      return Err(BadDate);
    }
    if inp.expiry.At? && (before.expiresAt.None? || inp.expiry.time != before.expiresAt.value) {
      if inp.expiry.time <= now {
        return Err(AlreadyExpired);
      }
      return Ok(Some(inp.expiry.time));
    }
    return Ok(before.expiresAt);
  }

  /** The decisions of an edit, in the service's order. */
  method EditPromo(p: Promo, inp: PromoInput, now: int) returns (r: Result<(Promo, Ask), PromoError>)
    ensures r == Edited(p, inp, now)
    ensures r.Ok? ==> CodeEdited(p, inp, now, r.value.0, r.value.1)
    ensures r.Err? ==> forall q, ask :: !CodeEdited(p, inp, now, q, ask)
  {
    EditedMeans(p, inp, now);
    hide Refusal, NeedsApproval, NoMoreThan, EditedTerms, EditedExpiry, Over;
    var st, money := EditTerms(p.terms, inp);
    var expiry := EditExpiry(p.terms, inp, now);
    if expiry.Err? {
      return Err(expiry.error);
    }
    SameButExpiry(st, p.terms, expiry.value);
    st := st.(expiresAt := expiry.value);
    if Refusal(st).Some? {
      return Err(Refusal(st).value);
    }
    if inp.active == Some(true) && Over(st.expiresAt, now) {
      return Err(ActivateExpired);
    }
    var active, approval, ask := p.active, p.approval, Leave;
    if money && NeedsApproval(st) {
      approval, active, ask := Pending, false, Propose;
    } else if money && approval != Approved {
      approval, ask := Approved, Withdraw;
    }
    if inp.active.Some? && !(money && approval == Pending) {
      if inp.active.value && approval != Approved {
        return Err(NeedsApprovalFirst);
      }
      active := inp.active.value;
    }
    return Ok((p.(terms := st, active := active, approval := approval), ask));
  }

  lemma SameButExpiry(a: Terms, b: Terms, expiry: Option<int>)
    ensures NoMoreThan(a.(expiresAt := expiry), b) == NoMoreThan(a, b)
  {
  }

  // ---------------------------------------------------------------------------------------
  // Using a code
  // ---------------------------------------------------------------------------------------

  datatype Order = Order(id: OrderId, user: UserId, subtotal: int, fee: int, hasOrders: bool)

  predicate UsedBy(uses: map<OrderId, UserId>, user: UserId) {
    exists o :: o in uses && uses[o] == user
  }

  /** validatePromo: why the code does not serve the order; None when it does. */
  function UseRefused(p: Promo, o: Order, now: int): Option<PromoError> {
    if !p.active || p.approval != Approved then Some(Invalid)
    else if p.terms.expiresAt.Some? && now > p.terms.expiresAt.value then Some(AlreadyExpired)
    else if UsedUp(p.terms.maxUses, p.used) then Some(AllUsed)
    else if o.subtotal < p.terms.minOrder then Some(MinOrder)
    else if p.terms.oncePerUser && UsedBy(p.uses, o.user) then Some(AlreadyUsed)
    else if p.terms.firstOnly && o.hasOrders then Some(FirstOrderOnly)
    else None
  }

  // ---------------------------------------------------------------------------------------
  // What the decisions mean
  // ---------------------------------------------------------------------------------------

  /** A code is active exactly when the counters count it; of an approved code it is said that it is over before that
      it is used up, and either before that it is paused. */
  lemma ActiveIffLive(p: Promo, now: int)
    ensures StatusAt(p, now) == Active <==> Live(p, now)
    ensures StatusAt(p, now) == PendingApproval <==> p.approval == Pending
    ensures StatusAt(p, now) == WasRejected <==> p.approval == Rejected
    ensures p.approval == Approved ==>
              var over := p.terms.expiresAt.Some? && p.terms.expiresAt.value <= now;
              var usedUp := p.terms.maxUses.Some? && p.terms.maxUses.value <= p.used;
              && (StatusAt(p, now) == Expired <==> over)
              && (StatusAt(p, now) == Exhausted <==> !over && usedUp)
              && (StatusAt(p, now) == Paused <==> !over && !usedUp && !p.active)
  {
  }

  /** An order accepts a code exactly when its status is active, or it is the last instant of its day:
      orders keep the instant of expiry, the status does not. */
  lemma UsableIffActive(p: Promo, o: Order, now: int)
    requires o.subtotal >= p.terms.minOrder && !(p.terms.oncePerUser && UsedBy(p.uses, o.user))
    requires !(p.terms.firstOnly && o.hasOrders)
    ensures UseRefused(p, o, now).None? <==>
              StatusAt(p, now) == Active ||
                  (p.terms.expiresAt == Some(now) && StatusAt(p.(terms := p.terms.(expiresAt := None)), now) == Active)
  {
  }

  lemma Part(subtotal: int, value: int, cut: int)
    requires subtotal >= 0 && 0 <= value <= FREE_PERCENT && cut <= subtotal * value / 100
    ensures cut * 100 <= subtotal * FREE_PERCENT
  {
    assert subtotal * value <= subtotal * FREE_PERCENT;
  }

  /** A code within the limit takes at most a fifth of any order it serves. */
  lemma FreeCutIsSmall(p: Promo, o: Order, now: int)
    requires Refusal(p.terms).None? && !NeedsApproval(p.terms) && UseRefused(p, o, now).None?
    requires p.terms.kind == "percent" || p.terms.kind == "fixed"
    ensures var cut := Cut(p.terms, o.subtotal, o.fee);
            0 <= cut.0 && cut.0 * 100 <= o.subtotal * FREE_PERCENT && cut.1 == o.fee
  {
    var cut := Cut(p.terms, o.subtotal, o.fee).0;
    if p.terms.kind == "percent" {
      assert o.subtotal * p.terms.value >= 0;
      Part(o.subtotal, p.terms.value, cut);
    }
  }

  /** What a code takes off: a percentage in whole lira, rounded down, up to the cap; an amount up to the price of the
      goods; nothing but the fee of the delivery. */
  lemma CutMeans(t: Terms, subtotal: int, fee: int)
    requires TermsAllowed(t) && subtotal >= 0
    ensures var (off, due) := Cut(t, subtotal, fee);
            && due == (if t.kind == "free_delivery" then 0 else fee)
            && (t.kind == "free_delivery" ==> off == 0)
            && (t.kind == "fixed" ==> off == if t.value <= subtotal then t.value else subtotal)
            && (t.kind == "percent" ==>
                  && 0 <= off <= t.maxDiscount.value && off * 100 <= subtotal * t.value
                  && (off < t.maxDiscount.value ==> subtotal * t.value < (off + 1) * 100))
  {
    if t.kind == "percent" {
      PartOf(subtotal, t.value, subtotal * t.value);
      PercentCut(t, subtotal, fee, subtotal * t.value);
    }
  }

  lemma PartOf(subtotal: int, value: int, x: int)
    requires subtotal >= 0 && 0 <= value <= 90 && x == subtotal * value
    ensures 0 <= x <= subtotal * 90
  {
  }

  lemma PercentCut(t: Terms, subtotal: int, fee: int, x: int)
    requires t.kind == "percent" && t.maxDiscount.Some? && t.maxDiscount.value > 0 && subtotal >= 0
    requires x == subtotal * t.value && 0 <= x <= subtotal * 90
    ensures var (off, due) := Cut(t, subtotal, fee);
            && due == fee && 0 <= off <= t.maxDiscount.value && off * 100 <= x
            && (off < t.maxDiscount.value ==> x < (off + 1) * 100)
  {
  }

  /** The limit: a code needs finance exactly when it may be used more than fifty times, or, its cap apart, takes more
      than a fifth of some order it serves. */
  lemma NeedsApprovalMeans(t: Terms)
    requires TermsAllowed(t)
    ensures NeedsApproval(t) <==>
              || t.maxUses.None? || t.maxUses.value > 50
              || exists subtotal: nat :: subtotal >= t.minOrder && TakesMoreThanAFifth(t, subtotal)
  {
    hide Cut;
    if t.maxUses.Some? && t.maxUses.value <= 50 {
      if NeedsApproval(t) {
        if t.kind == "percent" {
          var s := 100 * (t.minOrder + 1);
          PercentTakes(t, s);
        } else {
          AmountTakes(t, if t.minOrder > 0 then t.minOrder else 1);
        }
      } else {
        forall subtotal: nat | subtotal >= t.minOrder
          ensures !TakesMoreThanAFifth(t, subtotal)
        {
          TakesAtMostAFifth(t, subtotal);
        }
      }
    }
  }

  predicate TakesMoreThanAFifth(t: Terms, subtotal: nat) {
    Cut(t.(maxDiscount := None), subtotal, 0).0 * 5 > subtotal
  }

  lemma PercentTakes(t: Terms, s: nat)
    requires t.kind == "percent" && FREE_PERCENT < t.value <= 90 && s > 0 && s % 100 == 0
    ensures TakesMoreThanAFifth(t, s)
  {
    var k := s / 100;
    Times(s, k, t.value);
    UncappedCut(t, s, s * t.value, k * t.value);
  }

  lemma Times(s: nat, k: nat, v: int)
    requires s == k * 100 && k > 0 && FREE_PERCENT < v <= 90
    ensures s * v == 100 * (k * v) && 20 * k < k * v <= 90 * k
  {
  }

  lemma UncappedCut(t: Terms, s: nat, x: int, part: int)
    requires t.kind == "percent" && x == s * t.value == 100 * part && s < part * 5 && part <= s
    ensures TakesMoreThanAFifth(t, s)
  {
  }

  lemma AmountTakes(t: Terms, s: nat)
    requires t.kind == "fixed" && t.value >= 1 && t.value * 100 > t.minOrder * FREE_PERCENT
    requires s == if t.minOrder > 0 then t.minOrder else 1
    ensures TakesMoreThanAFifth(t, s)
  {
  }

  lemma TakesAtMostAFifth(t: Terms, s: nat)
    requires TermsAllowed(t) && !NeedsApproval(t) && s >= t.minOrder
    ensures !TakesMoreThanAFifth(t, s)
  {
    if t.kind == "percent" {
      assert 0 <= s * t.value;
      Part(s, t.value, Cut(t.(maxDiscount := None), s, 0).0);
    }
  }

  /** The cost stated in a request is the most the code can take in all its uses, and some order takes that much. */
  lemma MaxCostIsMost(t: Terms, subtotal: nat)
    requires TermsAllowed(t) && t.maxUses.Some? && t.kind != "free_delivery"
    ensures Cut(t, subtotal, 0).0 * t.maxUses.value <= MaxCost(t)
    ensures exists s: nat :: TakesMost(t, s)
  {
    hide Cut, TakesMost;
    var most := if t.kind == "fixed" then t.value else t.maxDiscount.value;
    var s := if t.kind == "fixed" then t.value else 100 * t.maxDiscount.value;
    AtMost(t, subtotal, most);
    Uses(Cut(t, subtotal, 0).0, most, t.maxUses.value);
    AtMost(t, s, most);
    Reaches(t, s, most);
  }

  lemma AtMost(t: Terms, subtotal: nat, most: int)
    requires TermsAllowed(t) && t.kind != "free_delivery"
    requires most == if t.kind == "fixed" then t.value else t.maxDiscount.value
    ensures Cut(t, subtotal, 0).0 <= most
  {
    hide Cut;
    CutMeans(t, subtotal, 0);
  }

  lemma Reaches(t: Terms, s: nat, most: int)
    requires TermsAllowed(t) && t.maxUses.Some? && t.kind != "free_delivery" && Cut(t, s, 0).0 <= most
    requires if t.kind == "fixed" then s == most == t.value else most == t.maxDiscount.value && s == 100 * most
    ensures TakesMost(t, s)
  {
    hide Cut;
    CutMeans(t, s, 0);
    if t.kind == "percent" {
      HundredTimes(most, t.value, Cut(t, s, 0).0, s * t.value);
    }
  }

  lemma HundredTimes(most: int, v: int, off: int, x: int)
    requires most > 0 && v >= 1 && off <= most && x == 100 * most * v && (off < most ==> x < (off + 1) * 100)
    ensures off == most
  {
    assert 100 * most * v >= 100 * most;
  }

  predicate TakesMost(t: Terms, s: nat)
    requires t.maxUses.Some?
  {
    Cut(t, s, 0).0 * t.maxUses.value == MaxCost(t)
  }

  lemma Uses(a: int, b: int, n: int)
    requires a <= b && n >= 0
    ensures a * n <= b * n
  {
  }

  /** No code takes more than the goods, nor more than its cap or its amount. */
  lemma CutIsBounded(t: Terms, subtotal: int, fee: int)
    requires Refusal(t).None? && subtotal >= 0
    ensures var cut := Cut(t, subtotal, fee);
            && 0 <= cut.0 <= subtotal && (t.kind == "percent" ==> cut.0 <= t.maxDiscount.value)
            && (t.kind == "fixed" ==> cut.0 <= t.value) && (t.kind == "free_delivery" ==> cut.0 == 0)
  {
    assert t.kind == "percent" ==> subtotal * t.value >= 0;
  }
}
