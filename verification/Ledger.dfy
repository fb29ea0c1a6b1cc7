/** The payment ledger: invoices, passes and title unlocks as viewer/store.go keeps them in the
    tables of admin/migrations/0008_billing.sql, and their creation and settling in
    viewer/billing.go.

    An invoice is recognised by the exact amount it reserves.  Every operation below is one
    statement or one transaction, so a failed one either did not happen or happened unreported. */
module Ledger {
  import opened Seqs
  import opened Decimal

  datatype Ns = Ns(name: string)
  datatype Ref = Ref(hex: string)

  datatype Kind = Pass | Title | OtherKind
  datatype Status = Pending | Paid | Expired

  /** A reservation: an amount, in units of 10^-18, within a namespace. */
  datatype Lock = Lock(ns: Ns, amount: int)

  datatype Order = Order(ref: Ref, userId: int, kind: Kind, titleId: Option<int>, cents: nat)

  /** When an invoice was settled, and for how many days of its plan. */
  datatype Renewal = Renewal(at: int, days: int)

  datatype Invoice = Invoice(order: Order, expiresAt: int, status: Status, lock: Option<Lock>, paid: Option<Renewal>)
  datatype Unlock = Unlock(userId: int, titleId: int)

  /** `byLock` is the unique index on reservations, `refs` the one on references.  `expiry` holds
      each user's plan_expires_at, absent meaning NULL.  `settled` lists the invoices in the order
      in which they were settled. */
  datatype State = State(invoices: map<nat, Invoice>, nextId: nat, byLock: map<Lock, nat>, refs: set<Ref>,
                         expiry: map<int, int>, unlocks: map<Unlock, nat>, settled: seq<nat>)

  function Initial(base: map<int, int>): State {
    State(map[], 1, map[], {}, base, map[], [])
  }

  const DAY := 86400

  // ---------------------------------------------------------------- specification

  predicate Clashes(s: State, order: Order, lock: Lock) {
    order.ref in s.refs || lock in s.byLock
  }

  /** A new pending invoice, unless a unique index refuses it. */
  function Create(s: State, order: Order, lock: Lock, expiresAt: int): State {
    if Clashes(s, order, lock) then s
    else s.(invoices := s.invoices[s.nextId := Invoice(order, expiresAt, Pending, Some(lock), None)],
            nextId := s.nextId + 1, byLock := s.byLock[lock := s.nextId], refs := s.refs + {order.ref})
  }

  predicate RunOut(inv: Invoice, now: int) {
    inv.status == Pending && inv.expiresAt <= now
  }

  function ExpireAll(s: State, now: int): State {
    s.(invoices := map i | i in s.invoices ::
                     if RunOut(s.invoices[i], now)
                     then s.invoices[i].(status := Expired, lock := None)
                     else s.invoices[i],
       byLock := map l | l in s.byLock && !(s.byLock[l] in s.invoices && RunOut(s.invoices[s.byLock[l]], now))
                   :: s.byLock[l])
  }

  /** The payable invoices of a namespace. */
  function Payable(s: State, ns: Ns, now: int): set<nat> {
    set i | i in s.invoices && s.invoices[i].status == Pending && s.invoices[i].expiresAt > now
            && s.invoices[i].lock.Some? && s.invoices[i].lock.value.ns == ns
  }

  /** The payable invoice that reserved exactly this amount. */
  function Match(s: State, lock: Lock, now: int): Option<nat> {
    if lock in s.byLock && s.byLock[lock] in s.invoices && s.invoices[s.byLock[lock]].expiresAt > now
    then Some(s.byLock[lock]) else None
  }

  /** A later of two dates, NULL counting as now. */
  function Extend(date: Option<int>, at: int, days: int): int {
    (if date.Some? && date.value > at then date.value else at) + days * DAY
  }

  function DateOf(dates: map<int, int>, userId: int): Option<int> {
    if userId in dates then Some(dates[userId]) else None
  }

  predicate IsPassOf(invoices: map<nat, Invoice>, i: nat, userId: int) {
    && i in invoices && invoices[i].paid.Some?
    && invoices[i].order.kind == Pass && invoices[i].order.userId == userId
  }

  /** The passes among some invoices that a user has paid. */
  function Passes(invoices: map<nat, Invoice>, ids: seq<nat>, userId: int): seq<Renewal> {
    if ids == [] then []
    else
      var n := |ids| - 1;
      Passes(invoices, ids[..n], userId)
      + if IsPassOf(invoices, ids[n], userId) then [invoices[ids[n]].paid.value] else []
  }

  /** A user's settled passes, in the order in which they were settled. */
  function PassesOf(s: State, userId: int): seq<Renewal> {
    Passes(s.invoices, s.settled, userId)
  }

  predicate Grantable(order: Order) {
    order.kind == Pass || (order.kind == Title && order.titleId.Some?)
  }

  /** Settling invoice `i` fails: what it was for cannot be granted. */
  predicate Refused(s: State, i: nat) {
    i in s.invoices && s.invoices[i].status == Pending && !Grantable(s.invoices[i].order)
  }

  function AsPaid(inv: Invoice, days: int, now: int): Invoice {
    inv.(status := Paid, lock := None, paid := Some(Renewal(now, days)))
  }

  /** Settling invoice `i`.  Nothing happens unless it is still pending, or if what it was for
      cannot be granted, which rolls the transaction back. */
  function Settle(s: State, i: nat, days: int, now: int): State {
    if i !in s.invoices || s.invoices[i].status != Pending || !Grantable(s.invoices[i].order) then s
    else
      var inv := s.invoices[i];
      var paid := s.(invoices := s.invoices[i := AsPaid(inv, days, now)],
                     byLock := if inv.lock.Some? then s.byLock - {inv.lock.value} else s.byLock,
                     settled := s.settled + [i]);
      if inv.order.kind == Pass then
        paid.(expiry := s.expiry[inv.order.userId := Extend(DateOf(s.expiry, inv.order.userId), now, days)])
      else
        var u := Unlock(inv.order.userId, inv.order.titleId.value);
        if u in s.unlocks then paid else paid.(unlocks := s.unlocks[u := i])
  }

  /** What one observed transfer does when nothing comes between its match and its settling. */
  function Process(s: State, lock: Lock, days: int, now: int): State {
    var m := Match(s, lock, now);
    if m.Some? then Settle(s, m.value, days, now) else s
  }

  datatype Op =
    | DoCreate(order: Order, lock: Lock, expiresAt: int)
    | DoExpire(at: int)
    | DoSettle(i: nat, days: int, at: int)

  function Step(s: State, op: Op): State {
    match op
    case DoCreate(order, lock, expiresAt) => Create(s, order, lock, expiresAt)
    case DoExpire(at) => ExpireAll(s, at)
    case DoSettle(i, days, at) => Settle(s, i, days, at)
  }

  function RunFrom(s: State, ops: seq<Op>): State
    decreases |ops|
  {
    if ops == [] then s else RunFrom(Step(s, ops[0]), ops[1..])
  }

  // ---------------------------------------------------------------- the invariant

  ghost predicate InvoiceOk(s: State, i: nat) {
    i in s.invoices ==>
      && i < s.nextId && s.invoices[i].order.ref in s.refs
      && (s.invoices[i].status == Pending <==> s.invoices[i].lock.Some?)
      && (s.invoices[i].status == Paid <==> s.invoices[i].paid.Some?)
      && (s.invoices[i].lock.Some? ==> s.invoices[i].lock.value in s.byLock && s.byLock[s.invoices[i].lock.value] == i)
  }

  predicate IsPaid(s: State, i: nat) {
    i in s.invoices && s.invoices[i].status == Paid
  }

  /** A paid invoice has been settled, and one for a title has unlocked it. */
  predicate GrantOk(s: State, i: nat) {
    && (i in s.settled <==> IsPaid(s, i))
    && (IsPaid(s, i) && s.invoices[i].order.kind == Title ==>
          && s.invoices[i].order.titleId.Some?
          && Unlock(s.invoices[i].order.userId, s.invoices[i].order.titleId.value) in s.unlocks)
  }

  predicate NoneTwice(ids: seq<nat>) {
    forall a, b :: 0 <= a < b < |ids| ==> ids[a] != ids[b]
  }

  /** The unlock is the doing of a paid invoice for that title by that user. */
  predicate UnlockOk(s: State, u: Unlock) {
    u in s.unlocks ==>
      && s.unlocks[u] in s.invoices
      && var inv := s.invoices[s.unlocks[u]];
         && inv.status == Paid && inv.order.kind == Title
         && inv.order.userId == u.userId && inv.order.titleId == Some(u.titleId)
  }

  predicate LockOk(s: State, l: Lock) {
    l in s.byLock ==> s.byLock[l] in s.invoices && s.invoices[s.byLock[l]].lock == Some(l)
  }

  ghost predicate Inv(s: State) {
    && (forall i :: InvoiceOk(s, i)) && (forall i :: GrantOk(s, i)) && NoneTwice(s.settled)
    && (forall u :: UnlockOk(s, u)) && (forall l :: LockOk(s, l))
  }

  /** A user's plan ends as their settled passes make it end, where `base` is when it ended before. */
  predicate ExpiryOk(s: State, base: map<int, int>, u: int) {
    DateOf(s.expiry, u) == Renewed(DateOf(base, u), PassesOf(s, u))
  }

  // ---------------------------------------------------------------- renewals stack

  /** What passes settled one after the other make of a user's expiry date. */
  function Renewed(base: Option<int>, rs: seq<Renewal>): Option<int> {
    if rs == [] then base
    else Some(Extend(Renewed(base, rs[..|rs| - 1]), rs[|rs| - 1].at, rs[|rs| - 1].days))
  }

  function Days(rs: seq<Renewal>): int {
    if rs == [] then 0 else rs[0].days + Days(rs[1..])
  }

  /** When the passes from the `i`th on, laid end to end, end. */
  function EndFrom(rs: seq<Renewal>, i: nat): int
    requires i < |rs|
  {
    rs[i].at + Days(rs[i..]) * DAY
  }

  /** `e` is the latest of: the old date with all passes laid after it, and for each pass the
      end of it and the later ones laid end to end from when it was settled. */
  ghost predicate IsLatest(base: Option<int>, rs: seq<Renewal>, e: int) {
    && ((base.Some? && e == base.value + Days(rs) * DAY) || exists i :: 0 <= i < |rs| && e == EndFrom(rs, i))
    && (base.Some? ==> e >= base.value + Days(rs) * DAY)
    && (forall i :: 0 <= i < |rs| ==> e >= EndFrom(rs, i))
  }

  lemma {:induction false} DaysAppend(rs: seq<Renewal>, r: Renewal)
    ensures Days(rs + [r]) == Days(rs) + r.days
  {
    if rs != [] {
      assert (rs + [r])[1..] == rs[1..] + [r];
      DaysAppend(rs[1..], r);
    }
  }

  lemma EndAppend(rs: seq<Renewal>, r: Renewal, i: nat)
    requires i <= |rs|
    ensures EndFrom(rs + [r], i) == (if i < |rs| then EndFrom(rs, i) else r.at) + r.days * DAY
  {
    assert (rs + [r])[i..] == rs[i..] + [r];
    DaysAppend(rs[i..], r);
  }

  lemma LatestOneMore(base: Option<int>, rs: seq<Renewal>, r: Renewal, e: int)
    requires r.days >= 0 && IsLatest(base, rs, e)
    ensures IsLatest(base, rs + [r], Extend(Some(e), r.at, r.days))
  {
    DaysAppend(rs, r);
    if j :| 0 <= j < |rs| && e == EndFrom(rs, j) { EndAppend(rs, r, j); }
    EndAppend(rs, r, |rs|);
    forall i | 0 <= i < |rs + [r]| ensures Extend(Some(e), r.at, r.days) >= EndFrom(rs + [r], i) {
      EndAppend(rs, r, i);
    }
  }

  lemma FirstRenewal(base: Option<int>, r: Renewal)
    requires r.days >= 0
    ensures IsLatest(base, [r], Extend(base, r.at, r.days))
  {
    EndAppend([], r, 0);
    DaysAppend([], r);
    assert [] + [r] == [r];
  }

  /** Renewals stack and never truncate, in whatever order of times they are settled. */
  lemma {:induction false} RenewalsStack(base: Option<int>, rs: seq<Renewal>)
    requires rs != [] && forall i :: 0 <= i < |rs| ==> rs[i].days >= 0
    ensures Renewed(base, rs).Some? && IsLatest(base, rs, Renewed(base, rs).value)
  {
    var before, r := rs[..|rs| - 1], rs[|rs| - 1];
    assert rs == before + [r];
    if before == [] {
      assert rs == [r];
      FirstRenewal(base, r);
    } else {
      RenewalsStack(base, before);
      LatestOneMore(base, before, r, Renewed(base, before).value);
    }
  }

  // ---------------------------------------------------------------- every step keeps Inv

  lemma CreateKeeps(s: State, order: Order, lock: Lock, expiresAt: int)
    requires Inv(s)
    ensures Inv(Create(s, order, lock, expiresAt))
  {
    var t := Create(s, order, lock, expiresAt);
    if !Clashes(s, order, lock) {
      assert InvoiceOk(s, s.nextId) && GrantOk(s, s.nextId);
      forall i ensures InvoiceOk(t, i) && GrantOk(t, i) { assert InvoiceOk(s, i) && GrantOk(s, i); }
      forall u ensures UnlockOk(t, u) { assert UnlockOk(s, u); }
      forall l ensures LockOk(t, l) { assert LockOk(s, l); }
    }
  }

  lemma ExpireKeeps(s: State, now: int)
    requires Inv(s)
    ensures Inv(ExpireAll(s, now))
  {
    var t := ExpireAll(s, now);
    forall i ensures InvoiceOk(t, i) && GrantOk(t, i) { assert InvoiceOk(s, i) && GrantOk(s, i); }
    forall u ensures UnlockOk(t, u) { assert UnlockOk(s, u); }
    forall l ensures LockOk(t, l) { assert LockOk(s, l); }
  }

  lemma SettleInvoices(s: State, i: nat, days: int, now: int)
    requires Inv(s)
    ensures var t := Settle(s, i, days, now); (forall j :: InvoiceOk(t, j)) && (forall l :: LockOk(t, l))
  {
    var t := Settle(s, i, days, now);
    assert InvoiceOk(s, i);
    forall j ensures InvoiceOk(t, j) { assert InvoiceOk(s, j); }
    forall l ensures LockOk(t, l) { assert LockOk(s, l); }
  }

  lemma SettleGrants(s: State, i: nat, days: int, now: int)
    requires Inv(s)
    ensures var t := Settle(s, i, days, now);
            (forall j :: GrantOk(t, j)) && (forall u :: UnlockOk(t, u)) && NoneTwice(t.settled)
  {
    var t := Settle(s, i, days, now);
    assert GrantOk(s, i);
    forall j ensures GrantOk(t, j) { assert GrantOk(s, j); }
    forall u ensures UnlockOk(t, u) { assert UnlockOk(s, u); }
  }

  /** What has been settled stays as it is when other invoices change. */
  lemma {:induction false} PassesStay(invoices: map<nat, Invoice>, after: map<nat, Invoice>, ids: seq<nat>, u: int)
    requires forall i :: i in ids ==> i in invoices && i in after && after[i] == invoices[i]
    ensures Passes(after, ids, u) == Passes(invoices, ids, u)
  {
    if ids != [] { PassesStay(invoices, after, ids[..|ids| - 1], u); }
  }

  lemma SettledStay(s: State, op: Op)
    requires Inv(s)
    ensures forall i :: i in s.settled ==> i in s.invoices && i in Step(s, op).invoices
                                           && Step(s, op).invoices[i] == s.invoices[i]
  {
    forall i | i in s.settled
      ensures i in s.invoices && i in Step(s, op).invoices && Step(s, op).invoices[i] == s.invoices[i]
    {
      assert GrantOk(s, i) && InvoiceOk(s, i) && InvoiceOk(s, s.nextId);
    }
  }

  lemma ExpiryKeeps(s: State, op: Op, base: map<int, int>, u: int)
    requires Inv(s) && ExpiryOk(s, base, u)
    ensures ExpiryOk(Step(s, op), base, u)
  {
    SettledStay(s, op);
    PassesStay(s.invoices, Step(s, op).invoices, s.settled, u);
    if op.DoSettle? { SettleExtends(s, op.i, op.days, op.at, base, u); }
  }

  /** Settling invoice `i` extends the plan of user `u`. */
  predicate Extends(s: State, i: nat, u: int) {
    && i in s.invoices && s.invoices[i].status == Pending
    && s.invoices[i].order.kind == Pass && s.invoices[i].order.userId == u
  }

  lemma SettleAppends(s: State, i: nat, days: int, now: int, u: int)
    ensures var t := Settle(s, i, days, now);
            PassesOf(t, u) == Passes(t.invoices, s.settled, u) + if Extends(s, i, u) then [Renewal(now, days)] else []
  {
    var t := Settle(s, i, days, now);
    if t == s { NoneBefore(PassesOf(s, u)); } else { PassesAppend(t.invoices, s.settled, i, u); }
  }

  lemma SettleDates(s: State, i: nat, days: int, now: int, u: int)
    ensures DateOf(Settle(s, i, days, now).expiry, u)
         == if Extends(s, i, u) then Some(Extend(DateOf(s.expiry, u), now, days)) else DateOf(s.expiry, u)
  {}

  lemma SettleExtends(s: State, i: nat, days: int, now: int, base: map<int, int>, u: int)
    requires ExpiryOk(s, base, u)
    requires Passes(Settle(s, i, days, now).invoices, s.settled, u) == PassesOf(s, u)
    ensures ExpiryOk(Settle(s, i, days, now), base, u)
  {
    var rs := PassesOf(s, u);
    SettleAppends(s, i, days, now, u);
    SettleDates(s, i, days, now, u);
    if Extends(s, i, u) { RenewedAppend(DateOf(base, u), rs, Renewal(now, days)); } else { NoneBefore(rs); }
  }

  lemma PassesAppend(invoices: map<nat, Invoice>, ids: seq<nat>, i: nat, u: int)
    ensures Passes(invoices, ids + [i], u)
         == Passes(invoices, ids, u) + if IsPassOf(invoices, i, u) then [invoices[i].paid.value] else []
  {
    SplitLast(ids, i);
  }

  lemma RenewedAppend(base: Option<int>, rs: seq<Renewal>, r: Renewal)
    ensures Renewed(base, rs + [r]) == Some(Extend(Renewed(base, rs), r.at, r.days))
  {
    SplitLast(rs, r);
  }

  lemma StepKeeps(s: State, op: Op)
    requires Inv(s)
    ensures Inv(Step(s, op))
  {
    match op
    case DoCreate(order, lock, expiresAt) => CreateKeeps(s, order, lock, expiresAt);
    case DoExpire(at) => ExpireKeeps(s, at);
    case DoSettle(i, days, at) =>
      SettleInvoices(s, i, days, at);
      SettleGrants(s, i, days, at);
  }

  // ---------------------------------------------------------------- every run

  lemma {:induction false} RunKeeps(s: State, ops: seq<Op>)
    requires Inv(s)
    ensures Inv(RunFrom(s, ops))
    decreases |ops|
  {
    if ops != [] {
      StepKeeps(s, ops[0]);
      RunKeeps(Step(s, ops[0]), ops[1..]);
    }
  }

  lemma InitialInv(base: map<int, int>)
    ensures Inv(Initial(base))
  {
    var s := Initial(base);
    forall i ensures InvoiceOk(s, i) && GrantOk(s, i) {}
    forall u ensures UnlockOk(s, u) {}
    forall l ensures LockOk(s, l) {}
  }

  /** Invoice `i` holds a reservation. */
  predicate Holds(s: State, i: nat) {
    i in s.invoices && s.invoices[i].lock.Some?
  }

  /** After any sequence of creations, expiries and settlings: no two invoices hold the same
      reservation; exactly the pending ones hold one; the paid ones are those that were settled,
      each once; and the unlocked titles are those of the paid title invoices. */
  lemma LedgerIsSound(base: map<int, int>, ops: seq<Op>)
    ensures var s := RunFrom(Initial(base), ops);
            && (forall i, j :: Holds(s, i) && Holds(s, j) && s.invoices[i].lock == s.invoices[j].lock ==> i == j)
            && (forall i :: i in s.invoices ==> (s.invoices[i].status == Pending <==> s.invoices[i].lock.Some?))
            && (forall i :: i in s.settled <==> IsPaid(s, i)) && NoneTwice(s.settled)
            && (forall u :: u in s.unlocks <==> exists i :: Unlocks(s, i, u))
  {
    var s := RunFrom(Initial(base), ops);
    InitialInv(base);
    RunKeeps(Initial(base), ops);
    forall i ensures i in s.settled <==> IsPaid(s, i) { assert GrantOk(s, i); }
    forall i | i in s.invoices
      ensures s.invoices[i].status == Pending <==> s.invoices[i].lock.Some?
      ensures Holds(s, i) ==> s.invoices[i].lock.value in s.byLock && s.byLock[s.invoices[i].lock.value] == i
    {
      assert InvoiceOk(s, i);
    }
    forall u ensures u in s.unlocks <==> exists i :: Unlocks(s, i, u) {
      assert UnlockOk(s, u);
      if u in s.unlocks { assert Unlocks(s, s.unlocks[u], u); }
      if i :| Unlocks(s, i, u) { assert GrantOk(s, i) && IsPaid(s, i); }
    }
  }

  /** Invoice `i` is paid and was for `u`. */
  predicate Unlocks(s: State, i: nat, u: Unlock) {
    && i in s.invoices && s.invoices[i].status == Paid && s.invoices[i].order.kind == Title
    && s.invoices[i].order.userId == u.userId && s.invoices[i].order.titleId == Some(u.titleId)
  }

  /** What was settled earlier comes earlier. */
  lemma {:induction false} SettledInOrder(s: State, ops: seq<Op>)
    ensures s.settled <= RunFrom(s, ops).settled
    decreases |ops|
  {
    if ops != [] { SettledInOrder(Step(s, ops[0]), ops[1..]); }
  }

  lemma {:induction false} RunKeepsExpiry(s: State, ops: seq<Op>, base: map<int, int>, u: int)
    requires Inv(s) && ExpiryOk(s, base, u)
    ensures ExpiryOk(RunFrom(s, ops), base, u)
    decreases |ops|
  {
    if ops != [] {
      StepKeeps(s, ops[0]);
      ExpiryKeeps(s, ops[0], base, u);
      RunKeepsExpiry(Step(s, ops[0]), ops[1..], base, u);
    }
  }

  /** One of `ops` settled invoice `i` just when, and for as many days, as it says. */
  ghost predicate SettledBy(ops: seq<Op>, i: nat, paid: Option<Renewal>) {
    exists k :: 0 <= k < |ops| && SettlesAs(ops[k], i, paid)
  }

  predicate SettlesAs(op: Op, i: nat, paid: Option<Renewal>) {
    op.DoSettle? && op.i == i && paid == Some(Renewal(op.at, op.days))
  }

  lemma {:induction false} PaidAsSettled(s: State, ops: seq<Op>, i: nat)
    requires Inv(s) && !IsPaid(s, i) && IsPaid(RunFrom(s, ops), i)
    ensures SettledBy(ops, i, RunFrom(s, ops).invoices[i].paid)
    decreases |ops|
  {
    var t := Step(s, ops[0]);
    StepKeeps(s, ops[0]);
    if IsPaid(t, i) {
      assert InvoiceOk(s, s.nextId);
      assert SettlesAs(ops[0], i, t.invoices[i].paid);
      SettledIsFinal(t, ops[1..], i);
    } else {
      PaidAsSettled(t, ops[1..], i);
      var k :| 0 <= k < |ops[1..]| && SettlesAs(ops[1..][k], i, RunFrom(s, ops).invoices[i].paid);
      assert ops[1..][k] == ops[k + 1];
    }
  }

  /** A user's plan ends as the pass invoices they have paid, stacked in the order in which they
      were settled, say.  `settled` lists exactly the paid invoices, each once, and each is paid
      as some operation settled it. */
  lemma PlansStack(base: map<int, int>, ops: seq<Op>, userId: int)
    requires forall k :: 0 <= k < |ops| && ops[k].DoSettle? ==> ops[k].days >= 0
    ensures var s := RunFrom(Initial(base), ops);
            var rs := PassesOf(s, userId);
            && (forall i :: i in s.settled <==> IsPaid(s, i)) && NoneTwice(s.settled)
            && (forall i :: IsPaid(s, i) ==> SettledBy(ops, i, s.invoices[i].paid))
            && if rs == [] then DateOf(s.expiry, userId) == DateOf(base, userId)
               else userId in s.expiry && IsLatest(DateOf(base, userId), rs, s.expiry[userId])
  {
    var s := RunFrom(Initial(base), ops);
    InitialInv(base);
    LedgerIsSound(base, ops);
    forall i | IsPaid(s, i) ensures SettledBy(ops, i, s.invoices[i].paid) { PaidAsSettled(Initial(base), ops, i); }
    RunKeepsExpiry(Initial(base), ops, base, userId);
    DaysStay(Initial(base), ops);
    PassesHaveDays(s.invoices, s.settled, userId);
    if PassesOf(s, userId) != [] { RenewalsStack(DateOf(base, userId), PassesOf(s, userId)); }
  }

  predicate DaysOk(invoices: map<nat, Invoice>) {
    forall i :: i in invoices && invoices[i].paid.Some? ==> invoices[i].paid.value.days >= 0
  }

  lemma {:induction false} DaysStay(s: State, ops: seq<Op>)
    requires DaysOk(s.invoices) && forall k :: 0 <= k < |ops| && ops[k].DoSettle? ==> ops[k].days >= 0
    ensures DaysOk(RunFrom(s, ops).invoices)
    decreases |ops|
  {
    if ops != [] { DaysStay(Step(s, ops[0]), ops[1..]); }
  }

  lemma {:induction false} PassesHaveDays(invoices: map<nat, Invoice>, ids: seq<nat>, u: int)
    requires DaysOk(invoices)
    ensures forall k :: 0 <= k < |Passes(invoices, ids, u)| ==> Passes(invoices, ids, u)[k].days >= 0
  {
    if ids != [] { PassesHaveDays(invoices, ids[..|ids| - 1], u); }
  }

  lemma StepIsFinal(s: State, op: Op, i: nat)
    requires Inv(s) && i in s.invoices
    ensures var t := Step(s, op);
            && i in t.invoices && t.invoices[i].order == s.invoices[i].order
            && (s.invoices[i].status != Pending ==> t.invoices[i] == s.invoices[i])
  {
    assert InvoiceOk(s, i) && InvoiceOk(s, s.nextId);
  }

  /** Paid and expired are final, and what an invoice was for never changes. */
  lemma {:induction false} SettledIsFinal(s: State, ops: seq<Op>, i: nat)
    requires Inv(s) && i in s.invoices
    ensures var t := RunFrom(s, ops);
            && i in t.invoices && t.invoices[i].order == s.invoices[i].order
            && (s.invoices[i].status != Pending ==> t.invoices[i] == s.invoices[i])
    decreases |ops|
  {
    if ops != [] {
      StepKeeps(s, ops[0]);
      StepIsFinal(s, ops[0], i);
      SettledIsFinal(Step(s, ops[0]), ops[1..], i);
    }
  }

  // ---------------------------------------------------------------- replayed transfers

  predicate Reserves(op: Op, lock: Lock) {
    op.DoCreate? && op.lock == lock
  }

  lemma {:induction false} StaysUnreserved(s: State, ops: seq<Op>, lock: Lock)
    requires lock !in s.byLock && forall k :: 0 <= k < |ops| ==> !Reserves(ops[k], lock)
    ensures lock !in RunFrom(s, ops).byLock
    decreases |ops|
  {
    if ops != [] {
      assert !Reserves(ops[0], lock);
      StaysUnreserved(Step(s, ops[0]), ops[1..], lock);
    }
  }

  /** Once a transfer has been credited, seeing it again changes nothing, however much later, as
      long as nobody has reserved its amount again. */
  lemma ReplayChangesNothing(s: State, lock: Lock, days: int, now: int, ops: seq<Op>, again: int, later: int)
    requires Inv(s) && Process(s, lock, days, now) != s
    requires forall k :: 0 <= k < |ops| ==> !Reserves(ops[k], lock)
    ensures var t := RunFrom(Process(s, lock, days, now), ops); Process(t, lock, again, later) == t
  {
    assert LockOk(s, lock);
    StaysUnreserved(Process(s, lock, days, now), ops, lock);
  }

  /** Invoice `i` holds this amount, and can still be paid and granted. */
  predicate Waits(s: State, i: nat, lock: Lock, now: int) {
    i in Payable(s, lock.ns, now) && s.invoices[i].lock == Some(lock) && Grantable(s.invoices[i].order)
  }

  /** A transfer changes the ledger exactly when a payable, grantable invoice holds its amount. */
  lemma WhenTransfersCount(s: State, lock: Lock, days: int, now: int)
    requires Inv(s)
    ensures Process(s, lock, days, now) != s <==> exists i :: Waits(s, i, lock, now)
  {
    assert LockOk(s, lock);
    if i :| Waits(s, i, lock, now) {
      assert InvoiceOk(s, i);
      assert Process(s, lock, days, now).invoices[i].status == Paid;
    }
    if Process(s, lock, days, now) != s {
      var i := s.byLock[lock];
      assert InvoiceOk(s, i);
      assert Waits(s, i, lock, now);
    }
  }

  /** The match is by amount alone, so one transfer seen again after its amount was reserved
      anew pays a second invoice. */
  lemma ReplayCanPayTwice(a: Order, b: Order, lock: Lock)
    requires a.ref != b.ref && a.kind == Pass && b.kind == Pass
    ensures var once := Process(Create(Initial(map[]), a, lock, 100), lock, 30, 1);
            var twice := Process(Create(once, b, lock, 100), lock, 30, 2);
            twice.invoices[1].status == Paid && twice.invoices[2].status == Paid
  {
    var s := Create(Initial(map[]), a, lock, 100);
    var once := Process(s, lock, 30, 1);
    assert s.byLock == map[lock := 1] && s.invoices[1].lock == Some(lock);
    assert once.refs == {a.ref} && lock !in once.byLock && once.nextId == 2;
    var again := Create(once, b, lock, 100);
    assert again.byLock[lock] == 2 && again.invoices[2].status == Pending;
  }

  /** Exactly when a transfer that has been credited pays again: when an invoice that did not exist
      then has reserved its amount since, and is payable and grantable. */
  lemma ReplayPaysIff(s: State, lock: Lock, days: int, now: int, ops: seq<Op>, again: int, later: int)
    requires Inv(s) && Process(s, lock, days, now) != s
    ensures var once := Process(s, lock, days, now);
            var t := RunFrom(once, ops);
            Process(t, lock, again, later) != t <==> exists i :: i !in once.invoices && Waits(t, i, lock, later)
  {
    var once := Process(s, lock, days, now);
    var t := RunFrom(once, ops);
    assert LockOk(s, lock);
    StepKeeps(s, DoSettle(s.byLock[lock], days, now));
    RunKeeps(once, ops);
    WhenTransfersCount(t, lock, again, later);
    forall i | Waits(t, i, lock, later) ensures i !in once.invoices {
      if i in once.invoices {
        assert InvoiceOk(once, i);
        LocksAreNotRegained(once, ops, i);
      }
    }
  }

  lemma {:induction false} LocksAreNotRegained(s: State, ops: seq<Op>, i: nat)
    requires Inv(s) && i in s.invoices
    ensures var t := RunFrom(s, ops);
            i in t.invoices && (t.invoices[i].lock == s.invoices[i].lock || t.invoices[i].lock == None)
    decreases |ops|
  {
    if ops != [] {
      StepKeeps(s, ops[0]);
      assert InvoiceOk(s, i) && InvoiceOk(s, s.nextId);
      LocksAreNotRegained(Step(s, ops[0]), ops[1..], i);
    }
  }

  /** Which invoice a transfer of `v` raw units of a token pays: the payable one whose price and
      dust are worth exactly that much. */
  lemma TransferPaysExactAmount(s: State, ns: Ns, v: int, decimals: nat, cents: nat, dust: nat, i: nat, now: int)
    requires Inv(s) && AMOUNT_DECIMALS <= decimals <= 18 && cents <= MAX_CENTS && dust < MAX_DUST
    requires i in Payable(s, ns, now) && s.invoices[i].lock == Some(LockOf(ns, cents, dust))
    ensures Cast(ScaleDecimal(v, decimals)).Some?
    ensures Match(s, Lock(ns, Cast(ScaleDecimal(v, decimals)).value), now) == Some(i) <==>
            v == Shift(Units(cents, dust), decimals - AMOUNT_DECIMALS)
  {
    CastOfAmount(cents, dust);
    CastOfTransfer(v, decimals);
    ColumnComparesExactly(v, decimals, cents, dust);
    assert InvoiceOk(s, i) && LockOk(s, Lock(ns, Cast(ScaleDecimal(v, decimals)).value));
  }

  // ---------------------------------------------------------------- the store and the service

  datatype DbError = NoError | Duplicate | Unreported

  /** What the connection does to a statement: nothing, lose the request, or lose the reply to
      one that the server has carried out. */
  datatype Fault = NoFault | LostRequest | LostReply

  /** A reservation lies between a price and a cent more. */
  lemma ReservedIsPrice(ns: Ns, cents: nat, dust: nat)
    requires cents <= MAX_CENTS && dust < MAX_DUST
    ensures cents * 10_000_000_000_000_000 <= LockOf(ns, cents, dust).amount < (cents + 1) * 10_000_000_000_000_000
  {
    CastOfAmount(cents, dust);
  }

  datatype Created = Reserved(lock: Lock) | NoPrice | NoRandom | Saturated | Failed

  const RESERVE_TRIES := 12

  /** The order and the reservation a try at an invoice makes. */
  function OrderOf(order: Order, ref: Ref): Order {
    order.(ref := ref)
  }

  function LockOf(ns: Ns, cents: nat, dust: nat): Lock {
    Lock(ns, Cast(FormatAmount(cents, dust)).GetOr(0))
  }

  /** What a try meets: the surcharge drawn, if the source of randomness works, a fresh reference, what
      others do before the row is written, when it is, and what the connection does. */
  datatype Try = Try(dust: Option<nat>, ref: Ref, others: seq<Op>, at: int, fault: Fault)

  /** The state after others have acted before each of the first `n` tries. */
  function AfterOthers(s: State, tries: nat -> Try, n: nat): State {
    if n == 0 then s else RunFrom(AfterOthers(s, tries, n - 1), tries(n - 1).others)
  }

  /** Try `t` found its amount or its reference taken. */
  predicate TryClashes(s: State, tries: nat -> Try, order: Order, ns: Ns, t: nat) {
    && tries(t).dust.Some?
    && Clashes(AfterOthers(s, tries, t + 1), OrderOf(order, tries(t).ref), LockOf(ns, order.cents, tries(t).dust.value))
  }

  /** What try `t` makes of the state `was`. */
  predicate Tried(was: State, order: Order, lock: Lock, ttlMin: nat, t: Try, err: DbError, now: State) {
    var o := OrderOf(order, t.ref);
    match err
    case NoError => !Clashes(was, o, lock) && now == Create(was, o, lock, t.at + ttlMin * 60)
    case Duplicate => Clashes(was, o, lock) && now == was
    case Unreported => t.fault != NoFault && (now == was || now == Create(was, o, lock, t.at + ttlMin * 60))
  }

  /** A pending invoice that has not run out holds the amount. */
  predicate IsOpen(inv: Invoice, lock: Lock, now: int) {
    inv.status == Pending && inv.lock == Some(lock) && inv.expiresAt > now
  }

  /** The invoice `i` is paid and gives up its reservation, and what it was for is granted: a pass
      runs `days` longer from when the last one ends, or from `now`; a title is unlocked once. */
  ghost predicate PaysAndGrants(before: State, i: nat, days: int, now: int, after: State) {
    && i in before.invoices
    && var inv, u := before.invoices[i], before.invoices[i].order.userId;
       && after.invoices ==
            before.invoices[i := Invoice(inv.order, inv.expiresAt, Paid, None, Some(Renewal(now, days)))]
       && after.settled == before.settled + [i] && after.nextId == before.nextId && after.refs == before.refs
       && (inv.lock.Some? ==> after.byLock == before.byLock - {inv.lock.value})
       && (inv.lock == None ==> after.byLock == before.byLock)
       && match inv.order.kind
          case Pass =>
            && after.unlocks == before.unlocks && after.expiry.Keys == before.expiry.Keys + {u}
            && (forall v :: v in before.expiry && v != u ==> after.expiry[v] == before.expiry[v])
            && after.expiry[u] ==
                 (if u in before.expiry && before.expiry[u] > now then before.expiry[u] else now) + days * 86_400
          case Title =>
            && after.expiry == before.expiry && inv.order.titleId.Some?
            && var t := Unlock(u, inv.order.titleId.value);
               after.unlocks == if t in before.unlocks then before.unlocks else before.unlocks[t := i]
          case OtherKind => false
  }

  class Store {
    var db: State

    ghost predicate Valid()
      reads this
    {
      Inv(db)
    }

    constructor (base: map<int, int>)
      ensures Valid() && db == Initial(base)
    {
      db := Initial(base);
      InitialInv(base);
    }

    method CreateInvoiceRow(order: Order, lock: Lock, expiresAt: int, fault: Fault) returns (err: DbError)
      requires Valid()
      modifies this
      ensures Valid()
      ensures err == NoError ==> !Clashes(old(db), order, lock) && db == Create(old(db), order, lock, expiresAt)
      ensures err == NoError ==>
                var id := old(db).nextId;
                && db.invoices == old(db).invoices[id := Invoice(order, expiresAt, Pending, Some(lock), None)]
                && db.byLock == old(db).byLock[lock := id] && db.refs == old(db).refs + {order.ref}
                && db.nextId == id + 1 && db.settled == old(db).settled
                && db.expiry == old(db).expiry && db.unlocks == old(db).unlocks
      ensures err == Duplicate ==> Clashes(old(db), order, lock) && db == old(db)
      ensures err == Duplicate ==> order.ref in db.refs || lock in db.byLock
      ensures err == Unreported ==> fault != NoFault
      ensures err == Unreported ==> db == old(db) || db == Create(old(db), order, lock, expiresAt)
    {
      if fault == LostRequest {
        return Unreported;
      }
      if order.ref in db.refs || lock in db.byLock {
        return if fault == NoFault then Duplicate else Unreported;
      }
      CreateKeeps(db, order, lock, expiresAt);
      var id := db.nextId;
      db := db.(invoices := db.invoices[id := Invoice(order, expiresAt, Pending, Some(lock), None)],
                byLock := db.byLock[lock := id], refs := db.refs + {order.ref}, nextId := id + 1);
      err := if fault == NoFault then NoError else Unreported;
    }

    /** Counts the payable invoices of a namespace, row by row. */
    method CountPendingInvoices(ns: Ns, now: int) returns (n: nat)
      requires Valid()
      ensures n == |Payable(db, ns, now)|
      ensures forall i :: i in Payable(db, ns, now) <==>
                i in db.invoices && db.invoices[i].lock.Some? && db.invoices[i].lock.value.ns == ns
                && IsOpen(db.invoices[i], db.invoices[i].lock.value, now)
    {
      n := 0;
      var rows := db.invoices.Keys;
      ghost var counted: set<nat> := {};
      while rows != {}
        invariant rows <= db.invoices.Keys && n == |counted|
        invariant forall i :: i in counted <==> i in Payable(db, ns, now) && i !in rows
      {
        var i :| i in rows;
        rows := rows - {i};
        var inv := db.invoices[i];
        if inv.status == Pending && inv.lock.Some? && inv.lock.value.ns == ns && inv.expiresAt > now {
          n, counted := n + 1, counted + {i};
        }
      }
      assert counted == Payable(db, ns, now);
    }

    method ExpireInvoices(now: int)
      requires Valid()
      modifies this
      ensures Valid() && db == ExpireAll(old(db), now)
      ensures db.invoices.Keys == old(db).invoices.Keys
      ensures forall i :: i in db.invoices ==>
                var inv := old(db).invoices[i];
                db.invoices[i] ==
                  if inv.status == Pending && inv.expiresAt <= now
                  then Invoice(inv.order, inv.expiresAt, Expired, None, inv.paid) else inv
      ensures db.settled == old(db).settled && db.expiry == old(db).expiry && db.unlocks == old(db).unlocks
      ensures db.nextId == old(db).nextId && db.refs == old(db).refs
    {
      ExpireKeeps(db, now);
      db := ExpireAll(db, now);
    }

    /** The payable invoice holding this amount, if any: there is never more than one. */
    method MatchPendingInvoice(lock: Lock, now: int) returns (m: Option<nat>)
      requires Valid()
      ensures m == Match(db, lock, now)
      ensures forall i :: i in Payable(db, lock.ns, now) && db.invoices[i].lock == Some(lock) <==> m == Some(i)
      ensures forall i :: i in db.invoices && IsOpen(db.invoices[i], lock, now) <==> m == Some(i)
    {
      m := None;
      if lock in db.byLock {
        assert LockOk(db, lock);
        if db.invoices[db.byLock[lock]].expiresAt > now {
          m := Some(db.byLock[lock]);
        }
      }
      forall i ensures i in Payable(db, lock.ns, now) && db.invoices[i].lock == Some(lock) <==> m == Some(i) {
        assert InvoiceOk(db, i);
      }
    }

    /** One transaction: mark the invoice paid, grant what it was for, and commit; or roll back. */
    method SettleInvoice(i: nat, days: int, now: int, fault: Fault) returns (ok: bool, err: DbError)
      requires Valid() && i in db.invoices
      modifies this
      ensures Valid()
      ensures err == NoError ==>
                && db == Settle(old(db), i, days, now) && !Refused(old(db), i)
                && (ok <==> old(db).invoices[i].status == Pending)
      ensures ok ==> PaysAndGrants(old(db), i, days, now, db)
      ensures !ok ==> db == old(db) || (err != NoError && PaysAndGrants(old(db), i, days, now, db))
      ensures err != NoError ==> !ok && (db == old(db) || db == Settle(old(db), i, days, now))
      ensures err != NoError ==> fault != NoFault || Refused(old(db), i)
    {
      if fault == LostRequest {
        return false, Unreported;
      }
      StepKeeps(db, DoSettle(i, days, now));
      var tx := db;
      var inv := tx.invoices[i];
      if inv.status != Pending {
        return false, if fault == NoFault then NoError else Unreported;
      }
      tx := tx.(invoices := tx.invoices[i := inv.(status := Paid, lock := None, paid := Some(Renewal(now, days)))],
                byLock := if inv.lock.Some? then tx.byLock - {inv.lock.value} else tx.byLock,
                settled := tx.settled + [i]);
      var userId := inv.order.userId;
      if inv.order.kind == Pass {
        tx := tx.(expiry := tx.expiry[userId := Extend(DateOf(tx.expiry, userId), now, days)]);
      } else if inv.order.kind == Title {
        if inv.order.titleId == None {
          return false, Unreported;
        }
        var u := Unlock(userId, inv.order.titleId.value);
        if u !in tx.unlocks {
          tx := tx.(unlocks := tx.unlocks[u := i]);
        }
      } else {
        return false, Unreported;
      }
      db := tx;
      ok := fault == NoFault;
      err := if ok then NoError else Unreported;
    }

    /** What other users of the database do. */
    method Others(ops: seq<Op>)
      requires Valid()
      modifies this
      ensures Valid() && db == RunFrom(old(db), ops)
    {
      RunKeeps(db, ops);
      db := RunFrom(db, ops);
    }

    /** One try at a row, after others have acted. */
    method TryRow(order: Order, lock: Lock, ttlMin: nat, t: Try) returns (err: DbError)
      requires Valid()
      modifies this
      ensures Valid() && Tried(RunFrom(old(db), t.others), order, lock, ttlMin, t, err, db)
    {
      Others(t.others);
      err := CreateInvoiceRow(OrderOf(order, t.ref), lock, t.at + ttlMin * 60, t.fault);
    }

    /** Reserves an amount for a new invoice: up to twelve random surcharges of less than a cent,
        until one is free when it is tried. */
    method CreateInvoice(order: Order, ns: Ns, ttlMin: nat, tries: nat -> Try) returns (r: Created, ghost k: nat)
      requires Valid() && forall t :: tries(t).dust.Some? ==> tries(t).dust.value < MAX_DUST
      modifies this
      ensures Valid() && k <= 12
      ensures forall t :: 0 <= t < k ==> TryClashes(old(db), tries, order, ns, t)
      ensures r == NoPrice <==> order.cents == 0
      ensures r == NoPrice || r == NoRandom || r == Saturated ==> db == AfterOthers(old(db), tries, k)
      ensures r == NoPrice ==> k == 0
      ensures r == NoRandom ==> k < 12 && tries(k).dust == None
      ensures r == Saturated <==> k == 12
      ensures r.Reserved? || r == Failed ==> k < 12 && tries(k).dust.Some?
      ensures r.Reserved? ==>
                && r.lock == LockOf(ns, order.cents, tries(k).dust.value)
                && Tried(AfterOthers(old(db), tries, k + 1), order, r.lock, ttlMin, tries(k), NoError, db)
      ensures r.Reserved? && order.cents <= MAX_CENTS ==>
                order.cents * 10_000_000_000_000_000 <= r.lock.amount < (order.cents + 1) * 10_000_000_000_000_000
      ensures r == Failed ==> tries(k).fault != NoFault
      ensures r == Failed ==>
                var lock := LockOf(ns, order.cents, tries(k).dust.value);
                Tried(AfterOthers(old(db), tries, k + 1), order, lock, ttlMin, tries(k), Unreported, db)
    {
      k := 0;
      if order.cents <= 0 {
        return NoPrice, k;
      }
      var try := 0;
      while try < RESERVE_TRIES
        invariant 0 <= try <= RESERVE_TRIES && k == try && Valid() && db == AfterOthers(old(db), tries, try)
        invariant forall t :: 0 <= t < try ==> TryClashes(old(db), tries, order, ns, t)
      {
        var t := tries(try);
        if t.dust == None {
          return NoRandom, k;
        }
        var lock := LockOf(ns, order.cents, t.dust.value);
        var err := TryRow(order, lock, ttlMin, t);
        if order.cents <= MAX_CENTS { ReservedIsPrice(ns, order.cents, t.dust.value); }
        if err == NoError {
          return Reserved(lock), k;
        }
        if err != Duplicate {
          return Failed, k;
        }
        try, k := try + 1, k + 1;
      }
      r := Saturated;
    }
  }
}
