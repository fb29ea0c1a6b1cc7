/** The poller that credits incoming transfers: Scan of viewer/chain_evm.go, and scanChain and
    settle of viewer/billing.go.

    A poll is a series of database statements and calls to a node, and between any two of them
    other users of the ledger may create, expire or settle invoices.  The first part of this module
    describes polls as steps and proves what holds in every interleaving; the second is the poller
    itself, every run of which is such an interleaving. */
module ChainScan {
  import opened Seqs
  import opened Decimal
  import opened Ledger

  const SCAN_CHUNK := 2000

  // ---------------------------------------------------------------- what a scan sees

  /** What to do with one poll, given the block the cursor stands at, if it has been set, and the
      chain's tip. */
  datatype Plan =
    | Stay
    | StartAt(tip: int)
    | Skip(from: int, to: int)
    | Query(from: int, to: int)

  function Min(a: int, b: int): int {
    if a < b then a else b
  }

  /** The range logic of a scan: blocks less than `minConf` below the tip are never looked at. */
  function PlanScan(cursor: Option<int>, latest: int, minConf: int, wantPayments: bool): Plan {
    var safeTo := latest - minConf;
    if safeTo < 0 then Stay
    else match cursor
      case None => StartAt(safeTo)
      case Some(c) =>
        if c + 1 > safeTo then Stay
        else
          var to := Min(c + SCAN_CHUNK, safeTo);
          if wantPayments then Query(c + 1, to) else Skip(c + 1, to)
  }

  function NextCursor(plan: Plan, cursor: Option<int>): Option<int> {
    match plan
    case Stay => cursor
    case StartAt(tip) => Some(tip)
    case Skip(_, to) => Some(to)
    case Query(_, to) => Some(to)
  }

  /** A Transfer log: the precision of its token, unless it is not one that is watched, and its
      data as a number, unless it is not one. */
  datatype Log = Log(decimals: Option<nat>, value: Option<nat>, txHash: string)

  /** A transfer as the scanner reports it. */
  datatype Observed = Observed(amount: string, txHash: string)

  predicate Counts(log: Log) {
    log.decimals.Some? && log.value.Some?
  }

  function Observe(log: Log): Observed
    requires Counts(log)
  {
    Observed(ScaleDecimal(log.value.value, log.decimals.value), log.txHash)
  }

  function Observations(logs: seq<Log>): seq<Observed> {
    if logs == [] then []
    else
      var n := |logs| - 1;
      Observations(logs[..n]) + if Counts(logs[n]) then [Observe(logs[n])] else []
  }

  /** What a poller watches: the namespace of its invoices, how deep a block has to lie, and the
      logs of every block, which no longer change once it lies that deep. */
  datatype Net = Net(ns: Ns, minConf: int, chain: int -> seq<Log>)

  /** The node's answer to a query for some blocks. */
  function LogsIn(net: Net, lo: int, hi: int): seq<Log>
    decreases if lo > hi then 0 else hi - lo + 1
  {
    if lo > hi then [] else LogsIn(net, lo, hi - 1) + net.chain(hi)
  }

  function Seen(net: Net, plan: Plan): seq<Observed> {
    if plan.Query? then Observations(LogsIn(net, plan.from, plan.to)) else []
  }

  lemma {:induction false} LogIsIn(net: Net, lo: int, hi: int, b: int, log: Log)
    requires lo <= b <= hi && log in net.chain(b)
    ensures log in LogsIn(net, lo, hi)
    decreases hi - lo
  {
    if b < hi { LogIsIn(net, lo, hi - 1, b, log); }
  }

  lemma {:induction false} LogIsObserved(logs: seq<Log>, log: Log)
    requires log in logs && Counts(log)
    ensures Observe(log) in Observations(logs)
  {
    var n := |logs| - 1;
    JoinLast(logs);
    if log != logs[n] { LogIsObserved(logs[..n], log); }
  }

  /** A query for some blocks is answered with just the logs of each, block by block. */
  lemma {:induction false} LogsSplit(net: Net, lo: int, mid: int, hi: int)
    requires lo - 1 <= mid <= hi
    ensures LogsIn(net, lo, hi) == LogsIn(net, lo, mid) + LogsIn(net, mid + 1, hi)
    ensures lo == hi ==> LogsIn(net, lo, hi) == net.chain(lo)
    decreases hi - mid
  {
    NoneBefore(net.chain(hi));
    if mid == hi {
      NoneBefore(LogsIn(net, lo, hi));
    } else {
      LogsSplit(net, lo, mid, hi - 1);
      Assoc(LogsIn(net, lo, mid), LogsIn(net, mid + 1, hi - 1), net.chain(hi));
    }
  }

  /** Of some logs just those that count are observed, each as often as it occurs. */
  lemma {:induction false} ObservationsJoin(a: seq<Log>, b: seq<Log>)
    ensures Observations(a + b) == Observations(a) + Observations(b)
    ensures |b| == 1 ==> Observations(b) == if Counts(b[0]) then [Observe(b[0])] else []
  {
    if b == [] {
      NoneBefore(a);
      NoneBefore(Observations(a));
    } else {
      var n := |b| - 1;
      ObservationsJoin(a, b[..n]);
      JoinLast(b);
      Assoc(a, b[..n], [b[n]]);
      SplitLast(a + b[..n], b[n]);
      Assoc(Observations(a), Observations(b[..n]), if Counts(b[n]) then [Observe(b[n])] else []);
      if n == 0 { NoneBefore([b[0]]); }
    }
  }

  /** The reservation a transfer is looked up by. */
  function LockFor(net: Net, ob: Observed): Option<Lock> {
    match Cast(ob.amount)
    case None => None
    case Some(amount) => Some(Lock(net.ns, amount))
  }

  function MatchFor(net: Net, db: State, ob: Observed, now: int): Option<nat> {
    match LockFor(net, ob)
    case None => None
    case Some(lock) => Match(db, lock, now)
  }

  // ---------------------------------------------------------------- polls as steps

  /** Where a poll stands: how many invoices were payable when it began, what it has seen and how
      many of those transfers it has handled, and the invoice it is about to settle. */
  datatype Phase =
    | Idle
    | Counted(payable: nat)
    | Handling(plan: Plan, obs: seq<Observed>, k: nat)
    | Found(plan: Plan, obs: seq<Observed>, k: nat, i: nat)

  datatype Sys = Sys(db: State, cursor: Option<int>, phase: Phase)

  /** `Other` is a statement of somebody else; `Fail` gives the poll up, whatever failed. */
  datatype Ev =
    | Other(op: Op)
    | Count(now: int)
    | Look(latest: int)
    | Find(now: int)
    | Pay(days: nat, now: int)
    | Save
    | Fail

  function Next(net: Net, s: Sys, ev: Ev): Sys {
    match ev
    case Other(op) => s.(db := Step(s.db, op))
    case Count(now) => if s.phase.Idle? then s.(phase := Counted(|Payable(s.db, net.ns, now)|)) else s
    case Look(latest) =>
      if s.phase.Counted? then
        var plan := PlanScan(s.cursor, latest, net.minConf, s.phase.payable > 0);
        s.(phase := Handling(plan, Seen(net, plan), 0))
      else s
    case Find(now) =>
      if s.phase.Handling? && s.phase.k < |s.phase.obs| then
        var m := MatchFor(net, s.db, s.phase.obs[s.phase.k], now);
        s.(phase := if m.Some? then Found(s.phase.plan, s.phase.obs, s.phase.k, m.value)
                    else Handling(s.phase.plan, s.phase.obs, s.phase.k + 1))
      else s
    case Pay(days, now) =>
      if s.phase.Found? then
        s.(db := Settle(s.db, s.phase.i, days, now),
           phase := if Refused(s.db, s.phase.i) then Idle else Handling(s.phase.plan, s.phase.obs, s.phase.k + 1))
      else s
    case Save =>
      if s.phase.Handling? && s.phase.k == |s.phase.obs| then
        s.(cursor := NextCursor(s.phase.plan, s.cursor), phase := Idle)
      else s
    case Fail => s.(phase := Idle)
  }

  predicate StepAt(net: Net, states: seq<Sys>, evs: seq<Ev>, k: nat) {
    k < |evs| && k + 1 < |states| && states[k + 1] == Next(net, states[k], evs[k])
  }

  /** `states` is what some interleaving of polls and other statements goes through. */
  ghost predicate IsRun(net: Net, states: seq<Sys>, evs: seq<Ev>) {
    && |states| == |evs| + 1 && Inv(states[0].db) && states[0].phase.Idle?
    && forall k :: 0 <= k < |evs| ==> StepAt(net, states, evs, k)
  }

  lemma {:induction false} LedgerKept(net: Net, states: seq<Sys>, evs: seq<Ev>, n: nat)
    requires IsRun(net, states, evs) && n < |states|
    ensures Inv(states[n].db)
  {
    if n > 0 {
      LedgerKept(net, states, evs, n - 1);
      assert StepAt(net, states, evs, n - 1);
      var s := states[n - 1];
      match evs[n - 1]
      case Other(op) => StepKeeps(s.db, op);
      case Pay(days, now) => if s.phase.Found? { StepKeeps(s.db, DoSettle(s.phase.i, days, now)); }
      case _ =>
    }
  }

  // ---------------------------------------------------------------- the cursor

  /** Only saving moves the cursor: forward, by at most 2000 blocks. */
  lemma CursorMoves(net: Net, s: Sys, ev: Ev)
    requires s.cursor.Some?
    requires ev.Save? && s.phase.Handling? ==>
               exists latest, want :: s.phase.plan == PlanScan(s.cursor, latest, net.minConf, want)
    ensures var t := Next(net, s, ev);
            && t.cursor.Some? && s.cursor.value <= t.cursor.value <= s.cursor.value + SCAN_CHUNK
            && (t.cursor != s.cursor ==>
                  && ev.Save? && s.phase.Handling? && s.phase.k == |s.phase.obs|
                  && (s.phase.plan.Skip? || s.phase.plan.Query?)
                  && s.phase.plan.from == s.cursor.value + 1 && s.phase.plan.to == t.cursor.value)
  {}

  // ---------------------------------------------------------------- where a poll comes from

  /** No invoice that could still be paid with `lock` is waiting for it at `now`. */
  ghost predicate NothingDue(s: State, lock: Lock, now: int) {
    forall i :: !Waits(s, i, lock, now)
  }

  /** One poll has been under way from the count at `c` up to `n`, and the cursor has not moved. */
  ghost predicate PollSince(states: seq<Sys>, evs: seq<Ev>, c: nat, n: nat) {
    && c < n < |states| && n <= |evs| && evs[c].Count? && states[c].phase.Idle?
    && states[c].cursor == states[n].cursor
    && forall x :: c < x <= n ==> !states[x].phase.Idle?
  }

  function PayableAt(net: Net, states: seq<Sys>, evs: seq<Ev>, c: nat): nat
    requires c < |evs| && c < |states| && evs[c].Count?
  {
    |Payable(states[c].db, net.ns, evs[c].now)|
  }

  /** Between `f` and `n`, the invoice `i` that held `lock` at `f` was settled by the statement at
      `p`: it is paid with it, unless somebody had settled or expired it meanwhile. */
  ghost predicate PaidAt(states: seq<Sys>, evs: seq<Ev>, f: nat, p: nat, n: nat, lock: Lock, i: nat) {
    && f < p < n < |states| && n <= |evs| && evs[f].Find? && evs[p].Pay?
    && i in Payable(states[f].db, lock.ns, evs[f].now) && states[f].db.invoices[i].lock == Some(lock)
    && states[p + 1].db == Settle(states[p].db, i, evs[p].days, evs[p].now)
    && i in states[p].db.invoices && i in states[p + 1].db.invoices
    && (states[p].db.invoices[i].status == Pending ==> IsPaid(states[p + 1].db, i))
  }

  /** At `f` the poll looks up a transfer worth `lock`. */
  predicate LooksUp(net: Net, states: seq<Sys>, evs: seq<Ev>, f: nat, lock: Lock) {
    && f < |evs| && f < |states| && evs[f].Find? && states[f].phase.Handling?
    && states[f].phase.k < |states[f].phase.obs|
    && LockFor(net, states[f].phase.obs[states[f].phase.k]) == Some(lock)
  }

  /** A transfer worth `lock` was looked up at `f`, and whatever waited for it was settled by `n`. */
  ghost predicate CreditedAt(net: Net, states: seq<Sys>, evs: seq<Ev>, f: nat, n: nat, lock: Lock) {
    && f < n < |states| && n <= |evs| && LooksUp(net, states, evs, f, lock)
    && (NothingDue(states[f].db, lock, evs[f].now) || exists p: nat, i: nat :: PaidAt(states, evs, f, p, n, lock, i))
  }

  /** Transfer `ob` was credited between `l` and `n`. */
  ghost predicate HandledIn(net: Net, states: seq<Sys>, evs: seq<Ev>, l: nat, n: nat, ob: Observed) {
    LockFor(net, ob).Some? ==> exists f: nat :: l < f && CreditedAt(net, states, evs, f, n, LockFor(net, ob).value)
  }

  /** The poll that began at `c` and looked at the chain at `l` has handled `k` of what it saw. */
  ghost predicate HandlingSince(net: Net, states: seq<Sys>, evs: seq<Ev>, c: nat, l: nat, n: nat,
                                plan: Plan, obs: seq<Observed>, k: nat) {
    && PollSince(states, evs, c, n) && c < l < n && evs[l].Look?
    && plan == PlanScan(states[n].cursor, evs[l].latest, net.minConf, PayableAt(net, states, evs, c) > 0)
    && obs == Seen(net, plan) && k <= |obs|
    && forall q :: 0 <= q < k ==> HandledIn(net, states, evs, l, n, obs[q])
  }

  /** At `f` the poll looks up `ob`, and finds invoice `i`. */
  predicate FindsAt(net: Net, states: seq<Sys>, evs: seq<Ev>, f: nat, ob: Observed, i: nat) {
    && f < |evs| && f < |states| && evs[f].Find? && states[f].phase.Handling?
    && states[f].phase.k < |states[f].phase.obs| && states[f].phase.obs[states[f].phase.k] == ob
    && MatchFor(net, states[f].db, ob, evs[f].now) == Some(i)
  }

  /** Invoice `i` was found for `ob` between `l` and `n`, and is still to be settled. */
  ghost predicate FoundIn(net: Net, states: seq<Sys>, evs: seq<Ev>, l: nat, n: nat, ob: Observed, i: nat) {
    && n < |states| && n <= |evs|
    && exists f: nat :: l < f < n && FindsAt(net, states, evs, f, ob, i)
  }

  ghost predicate PhaseOk(net: Net, states: seq<Sys>, evs: seq<Ev>, n: nat)
    requires n < |states|
  {
    match states[n].phase
    case Idle => true
    case Counted(payable) => exists c: nat :: PollSince(states, evs, c, n) && payable == PayableAt(net, states, evs, c)
    case Handling(plan, obs, k) => exists c: nat, l: nat :: HandlingSince(net, states, evs, c, l, n, plan, obs, k)
    case Found(plan, obs, k, i) =>
      exists c: nat, l: nat :: HandlingSince(net, states, evs, c, l, n, plan, obs, k)
                     && k < |obs| && FoundIn(net, states, evs, l, n, obs[k], i)
  }

  // ---------------------------------------------------------------- every step keeps it

  lemma CreditedLater(net: Net, states: seq<Sys>, evs: seq<Ev>, f: nat, n: nat, lock: Lock)
    requires CreditedAt(net, states, evs, f, n, lock) && n < |evs| && n + 1 < |states|
    ensures CreditedAt(net, states, evs, f, n + 1, lock)
  {
    if p: nat, i: nat :| PaidAt(states, evs, f, p, n, lock, i) { assert PaidAt(states, evs, f, p, n + 1, lock, i); }
  }

  lemma HandledLater(net: Net, states: seq<Sys>, evs: seq<Ev>, l: nat, n: nat, ob: Observed)
    requires HandledIn(net, states, evs, l, n, ob) && n < |evs| && n + 1 < |states|
    ensures HandledIn(net, states, evs, l, n + 1, ob)
  {
    if LockFor(net, ob).Some? {
      var f: nat :| l < f && CreditedAt(net, states, evs, f, n, LockFor(net, ob).value);
      CreditedLater(net, states, evs, f, n, LockFor(net, ob).value);
    }
  }

  lemma PollGoesOn(states: seq<Sys>, evs: seq<Ev>, c: nat, n: nat)
    requires PollSince(states, evs, c, n) && n < |evs| && n + 1 < |states|
    requires !states[n + 1].phase.Idle? && states[n + 1].cursor == states[n].cursor
    ensures PollSince(states, evs, c, n + 1)
  {}

  lemma HandlingGoesOn(net: Net, states: seq<Sys>, evs: seq<Ev>, c: nat, l: nat, n: nat,
                       plan: Plan, obs: seq<Observed>, k: nat)
    requires HandlingSince(net, states, evs, c, l, n, plan, obs, k) && n < |evs| && n + 1 < |states|
    requires !states[n + 1].phase.Idle? && states[n + 1].cursor == states[n].cursor
    ensures HandlingSince(net, states, evs, c, l, n + 1, plan, obs, k)
  {
    PollGoesOn(states, evs, c, n);
    forall q | 0 <= q < k ensures HandledIn(net, states, evs, l, n + 1, obs[q]) {
      HandledLater(net, states, evs, l, n, obs[q]);
    }
  }

  lemma OneMoreHandled(net: Net, states: seq<Sys>, evs: seq<Ev>, c: nat, l: nat, n: nat,
                       plan: Plan, obs: seq<Observed>, k: nat)
    requires HandlingSince(net, states, evs, c, l, n, plan, obs, k) && k < |obs|
    requires HandledIn(net, states, evs, l, n, obs[k])
    ensures HandlingSince(net, states, evs, c, l, n, plan, obs, k + 1)
  {}

  /** An invoice that is found for an amount is the one waiting for it, and if none is found, none
      is. */
  lemma MatchMeans(s: State, lock: Lock, now: int)
    requires Inv(s)
    ensures Match(s, lock, now) == None ==> NothingDue(s, lock, now)
    ensures Match(s, lock, now).Some? ==>
              var i := Match(s, lock, now).value; i in Payable(s, lock.ns, now) && s.invoices[i].lock == Some(lock)
  {
    assert LockOk(s, lock);
    if Match(s, lock, now).Some? { assert InvoiceOk(s, s.byLock[lock]); }
    forall i ensures Match(s, lock, now) == None ==> !Waits(s, i, lock, now) { assert InvoiceOk(s, i); }
  }

  lemma FindKeeps(net: Net, states: seq<Sys>, evs: seq<Ev>, n: nat)
    requires IsRun(net, states, evs) && n < |evs| && evs[n].Find? && PhaseOk(net, states, evs, n)
    requires states[n].phase.Handling? && states[n].phase.k < |states[n].phase.obs|
    ensures PhaseOk(net, states, evs, n + 1)
  {
    var Handling(plan, obs, k) := states[n].phase;
    var c: nat, l: nat :| HandlingSince(net, states, evs, c, l, n, plan, obs, k);
    FindKeepsFrom(net, states, evs, c, l, n, plan, obs, k);
  }

  lemma FindKeepsFrom(net: Net, states: seq<Sys>, evs: seq<Ev>, c: nat, l: nat, n: nat,
                      plan: Plan, obs: seq<Observed>, k: nat)
    requires IsRun(net, states, evs) && n < |evs| && evs[n].Find? && k < |obs|
    requires states[n].phase == Handling(plan, obs, k) && HandlingSince(net, states, evs, c, l, n, plan, obs, k)
    ensures PhaseOk(net, states, evs, n + 1)
  {
    assert StepAt(net, states, evs, n);
    LedgerKept(net, states, evs, n);
    HandlingGoesOn(net, states, evs, c, l, n, plan, obs, k);
    var lock := LockFor(net, obs[k]);
    if lock.Some? { MatchMeans(states[n].db, lock.value, evs[n].now); }
    if states[n + 1].phase.Handling? {
      if lock.Some? { assert CreditedAt(net, states, evs, n, n + 1, lock.value); }
      OneMoreHandled(net, states, evs, c, l, n + 1, plan, obs, k);
    } else {
      assert FindsAt(net, states, evs, n, obs[k], states[n + 1].phase.i);
      assert FoundIn(net, states, evs, l, n + 1, obs[k], states[n + 1].phase.i);
    }
  }

  /** An invoice, once there, stays. */
  lemma {:induction false} InvoicesStay(net: Net, states: seq<Sys>, evs: seq<Ev>, m: nat, n: nat, i: nat)
    requires IsRun(net, states, evs) && m <= n < |states| && i in states[m].db.invoices
    ensures i in states[n].db.invoices
  {
    if m < n {
      InvoicesStay(net, states, evs, m, n - 1, i);
      LedgerKept(net, states, evs, n - 1);
      assert StepAt(net, states, evs, n - 1);
      var s := states[n - 1];
      match evs[n - 1]
      case Other(op) => StepIsFinal(s.db, op, i);
      case Pay(days, now) => if s.phase.Found? { StepIsFinal(s.db, DoSettle(s.phase.i, days, now), i); }
      case _ =>
    }
  }

  lemma PayKeeps(net: Net, states: seq<Sys>, evs: seq<Ev>, n: nat)
    requires IsRun(net, states, evs) && n < |evs| && evs[n].Pay? && PhaseOk(net, states, evs, n)
    requires states[n].phase.Found?
    ensures PhaseOk(net, states, evs, n + 1)
  {
    var Found(plan, obs, k, i) := states[n].phase;
    var c: nat, l: nat :| HandlingSince(net, states, evs, c, l, n, plan, obs, k)
                && k < |obs| && FoundIn(net, states, evs, l, n, obs[k], i);
    PayKeepsFrom(net, states, evs, c, l, n, plan, obs, k);
  }

  lemma PayKeepsFrom(net: Net, states: seq<Sys>, evs: seq<Ev>, c: nat, l: nat, n: nat,
                     plan: Plan, obs: seq<Observed>, k: nat)
    requires IsRun(net, states, evs) && n < |evs| && evs[n].Pay? && states[n].phase.Found?
    requires states[n].phase == Found(plan, obs, k, states[n].phase.i)
    requires HandlingSince(net, states, evs, c, l, n, plan, obs, k) && k < |obs|
    requires FoundIn(net, states, evs, l, n, obs[k], states[n].phase.i)
    ensures PhaseOk(net, states, evs, n + 1)
  {
    assert StepAt(net, states, evs, n);
    if !Refused(states[n].db, states[n].phase.i) {
      PayCredits(net, states, evs, l, n, obs[k]);
      PayGoesOn(net, states, evs, c, l, n, plan, obs, k);
    }
  }

  lemma PayGoesOn(net: Net, states: seq<Sys>, evs: seq<Ev>, c: nat, l: nat, n: nat,
                  plan: Plan, obs: seq<Observed>, k: nat)
    requires HandlingSince(net, states, evs, c, l, n, plan, obs, k) && k < |obs| && n < |evs| && n + 1 < |states|
    requires HandledIn(net, states, evs, l, n + 1, obs[k])
    requires states[n + 1].phase == Handling(plan, obs, k + 1) && states[n + 1].cursor == states[n].cursor
    ensures PhaseOk(net, states, evs, n + 1)
  {
    HandlingGoesOn(net, states, evs, c, l, n, plan, obs, k);
    OneMoreHandled(net, states, evs, c, l, n + 1, plan, obs, k);
  }

  lemma PayCredits(net: Net, states: seq<Sys>, evs: seq<Ev>, l: nat, n: nat, ob: Observed)
    requires IsRun(net, states, evs) && n < |evs| && evs[n].Pay? && states[n].phase.Found?
    requires FoundIn(net, states, evs, l, n, ob, states[n].phase.i) && !Refused(states[n].db, states[n].phase.i)
    ensures HandledIn(net, states, evs, l, n + 1, ob)
  {
    var i := states[n].phase.i;
    var f: nat :| l < f < n && FindsAt(net, states, evs, f, ob, i);
    var lock := LockFor(net, ob).value;
    assert StepAt(net, states, evs, n);
    LedgerKept(net, states, evs, f);
    MatchMeans(states[f].db, lock, evs[f].now);
    InvoicesStay(net, states, evs, f, n, i);
    InvoicesStay(net, states, evs, f, n + 1, i);
    assert PaidAt(states, evs, f, n, n + 1, lock, i);
    assert CreditedAt(net, states, evs, f, n + 1, lock);
  }

  lemma CountKeeps(net: Net, states: seq<Sys>, evs: seq<Ev>, n: nat)
    requires IsRun(net, states, evs) && n < |evs| && evs[n].Count? && states[n].phase.Idle?
    ensures PhaseOk(net, states, evs, n + 1)
  {
    assert StepAt(net, states, evs, n);
    assert PollSince(states, evs, n, n + 1);
  }

  lemma LookKeeps(net: Net, states: seq<Sys>, evs: seq<Ev>, n: nat)
    requires IsRun(net, states, evs) && n < |evs| && evs[n].Look? && PhaseOk(net, states, evs, n)
    requires states[n].phase.Counted?
    ensures PhaseOk(net, states, evs, n + 1)
  {
    assert StepAt(net, states, evs, n);
    var c: nat :| PollSince(states, evs, c, n) && states[n].phase.payable == PayableAt(net, states, evs, c);
    PollGoesOn(states, evs, c, n);
    assert HandlingSince(net, states, evs, c, n, n + 1, states[n + 1].phase.plan, states[n + 1].phase.obs, 0);
  }

  /** A step that leaves the poll and the cursor as they are. */
  lemma PhaseGoesOn(net: Net, states: seq<Sys>, evs: seq<Ev>, n: nat)
    requires n < |evs| && n + 1 < |states| && PhaseOk(net, states, evs, n)
    requires states[n + 1].phase == states[n].phase && states[n + 1].cursor == states[n].cursor
    ensures PhaseOk(net, states, evs, n + 1)
  {
    match states[n].phase
    case Idle =>
    case Counted(payable) =>
      var c: nat :| PollSince(states, evs, c, n) && payable == PayableAt(net, states, evs, c);
      PollGoesOn(states, evs, c, n);
    case Handling(plan, obs, k) =>
      var c: nat, l: nat :| HandlingSince(net, states, evs, c, l, n, plan, obs, k);
      HandlingGoesOn(net, states, evs, c, l, n, plan, obs, k);
    case Found(plan, obs, k, i) =>
      var c: nat, l: nat :| HandlingSince(net, states, evs, c, l, n, plan, obs, k)
                  && k < |obs| && FoundIn(net, states, evs, l, n, obs[k], i);
      HandlingGoesOn(net, states, evs, c, l, n, plan, obs, k);
      assert FoundIn(net, states, evs, l, n + 1, obs[k], i);
  }

  /** At every point of every interleaving, a poll under way has done what it should have. */
  lemma {:induction false} PollsAreSound(net: Net, states: seq<Sys>, evs: seq<Ev>, n: nat)
    requires IsRun(net, states, evs) && n < |states|
    ensures PhaseOk(net, states, evs, n)
  {
    if n > 0 {
      var m := n - 1;
      PollsAreSound(net, states, evs, m);
      assert StepAt(net, states, evs, m);
      var phase := states[m].phase;
      if evs[m].Count? && phase.Idle? { CountKeeps(net, states, evs, m); }
      else if evs[m].Look? && phase.Counted? { LookKeeps(net, states, evs, m); }
      else if evs[m].Find? && phase.Handling? && phase.k < |phase.obs| { FindKeeps(net, states, evs, m); }
      else if evs[m].Pay? && phase.Found? { PayKeeps(net, states, evs, m); }
      else if !states[n].phase.Idle? { PhaseGoesOn(net, states, evs, m); }
    }
  }

  // ---------------------------------------------------------------- no block is missed

  lemma StepMoves(net: Net, states: seq<Sys>, evs: seq<Ev>, j: nat)
    requires IsRun(net, states, evs) && j < |evs| && states[j].cursor.Some?
    ensures states[j + 1].cursor.Some?
    ensures states[j].cursor.value <= states[j + 1].cursor.value <= states[j].cursor.value + SCAN_CHUNK
    ensures states[j + 1].cursor != states[j].cursor ==>
              && states[j].phase.Handling? && states[j].phase.k == |states[j].phase.obs|
              && (states[j].phase.plan.Skip? || states[j].phase.plan.Query?)
              && states[j].phase.plan.from == states[j].cursor.value + 1
              && states[j].phase.plan.to == states[j + 1].cursor.value
  {
    assert StepAt(net, states, evs, j);
    PollsAreSound(net, states, evs, j);
    if evs[j].Save? && states[j].phase.Handling? {
      var plan := states[j].phase.plan;
      var c: nat, l: nat :| HandlingSince(net, states, evs, c, l, j, plan, states[j].phase.obs, states[j].phase.k);
    }
    CursorMoves(net, states[j], evs[j]);
  }

  /** Whatever fails, the cursor never goes back. */
  lemma {:induction false} CursorNeverGoesBack(net: Net, states: seq<Sys>, evs: seq<Ev>, m: nat, n: nat)
    requires IsRun(net, states, evs) && m <= n < |states| && states[m].cursor.Some?
    ensures states[n].cursor.Some? && states[m].cursor.value <= states[n].cursor.value
  {
    if m < n {
      CursorNeverGoesBack(net, states, evs, m, n - 1);
      StepMoves(net, states, evs, n - 1);
    }
  }

  lemma {:induction false} Crossing(net: Net, states: seq<Sys>, evs: seq<Ev>, m: nat, n: nat, b: int)
    returns (j: nat)
    requires IsRun(net, states, evs) && m <= n < |states| && states[m].cursor.Some?
    requires states[n].cursor.Some? && states[m].cursor.value < b <= states[n].cursor.value
    ensures m <= j < n && states[j].cursor.Some? && states[j + 1].cursor.Some?
    ensures states[j].cursor.value < b <= states[j + 1].cursor.value
  {
    CursorNeverGoesBack(net, states, evs, m, n - 1);
    if states[n - 1].cursor.value < b { j := n - 1; } else { j := Crossing(net, states, evs, m, n - 1, b); }
  }

  /** The amount of a transfer of a token of at most eighteen decimals, as the column holds it. */
  function AmountOf(log: Log): int
    requires Counts(log) && log.decimals.value <= 18
  {
    Clip(Shift(log.value.value, 18 - log.decimals.value))
  }

  /** Between `l` and `n`, every transfer in block `b` was credited. */
  ghost predicate BlockCredited(net: Net, states: seq<Sys>, evs: seq<Ev>, l: nat, n: nat, b: int) {
    forall log :: log in net.chain(b) && Counts(log) && log.decimals.value <= 18 ==>
      exists f: nat :: l < f && CreditedAt(net, states, evs, f, n, Lock(net.ns, AmountOf(log)))
  }

  /** In every interleaving of polls with other uses of the ledger, whatever fails and wherever the
      tip moves: the cursor moved over each block it has passed by one save, at `j`, of a poll that
      counted the payable invoices at `c` and then looked at the chain at `l`, when the block lay
      deep enough.  Either that poll found nothing payable, or every transfer in the block was looked
      up after `l`, and what waited for it was settled, before the cursor moved. */
  lemma NoBlockMissed(net: Net, states: seq<Sys>, evs: seq<Ev>, m: nat, n: nat, b: int)
    returns (j: nat, c: nat, l: nat)
    requires IsRun(net, states, evs) && m <= n < |states| && states[m].cursor.Some?
    requires states[n].cursor.Some? && states[m].cursor.value < b <= states[n].cursor.value
    ensures m <= j < n && states[j].cursor.Some? && states[j + 1].cursor.Some?
    ensures states[j].cursor.value < b <= states[j + 1].cursor.value <= states[j].cursor.value + 2000
    ensures c < l < j && PollSince(states, evs, c, j)
    ensures evs[l].Look? && states[j + 1].cursor.value <= evs[l].latest - net.minConf
    ensures PayableAt(net, states, evs, c) == 0 || BlockCredited(net, states, evs, l, j, b)
    ensures PayableAt(net, states, evs, c) == 0 ==> states[j].phase.Handling? && states[j].phase.obs == []
  {
    j := Crossing(net, states, evs, m, n, b);
    StepMoves(net, states, evs, j);
    PollsAreSound(net, states, evs, j);
    var Handling(plan, obs, k) := states[j].phase;
    c, l :| HandlingSince(net, states, evs, c, l, j, plan, obs, k);
    if PayableAt(net, states, evs, c) > 0 { RangeCredited(net, states, evs, c, l, j, plan, obs, b); }
  }

  lemma RangeCredited(net: Net, states: seq<Sys>, evs: seq<Ev>, c: nat, l: nat, n: nat,
                      plan: Plan, obs: seq<Observed>, b: int)
    requires HandlingSince(net, states, evs, c, l, n, plan, obs, |obs|) && plan.Query? && plan.from <= b <= plan.to
    ensures BlockCredited(net, states, evs, l, n, b)
  {
    RangeIsHandled(net, states, evs, c, l, n, plan, obs);
    forall log | log in net.chain(b) && Counts(log) && log.decimals.value <= 18
      ensures exists f: nat :: l < f && CreditedAt(net, states, evs, f, n, Lock(net.ns, AmountOf(log)))
    {
      assert HandledIn(net, states, evs, l, n, Observe(log));
      LockOfLog(net, log);
    }
  }

  /** Between `l` and `n`, every transfer in the blocks from `lo` to `hi` was credited. */
  ghost predicate RangeHandled(net: Net, states: seq<Sys>, evs: seq<Ev>, l: nat, n: nat, lo: int, hi: int) {
    forall b, log :: lo <= b <= hi && log in net.chain(b) && Counts(log) ==>
      HandledIn(net, states, evs, l, n, Observe(log))
  }

  lemma RangeIsHandled(net: Net, states: seq<Sys>, evs: seq<Ev>, c: nat, l: nat, n: nat,
                       plan: Plan, obs: seq<Observed>)
    requires HandlingSince(net, states, evs, c, l, n, plan, obs, |obs|) && plan.Query?
    ensures RangeHandled(net, states, evs, l, n, plan.from, plan.to)
  {
    forall b, log | plan.from <= b <= plan.to && log in net.chain(b) && Counts(log)
      ensures HandledIn(net, states, evs, l, n, Observe(log))
    {
      var q := IndexSeen(net, plan, b, log);
      assert HandledIn(net, states, evs, l, n, obs[q]);
    }
  }

  /** What has been handled stays so as history goes on. */
  lemma HandledStays(net: Net, states: seq<Sys>, evs: seq<Ev>, states': seq<Sys>, evs': seq<Ev>,
                     l: nat, n: nat, lo: int, hi: int)
    requires RangeHandled(net, states, evs, l, n, lo, hi) && states <= states' && evs <= evs'
    ensures RangeHandled(net, states', evs', l, n, lo, hi)
  {
    forall b, log | lo <= b <= hi && log in net.chain(b) && Counts(log)
      ensures HandledIn(net, states', evs', l, n, Observe(log))
    {
      assert HandledIn(net, states, evs, l, n, Observe(log));
      var lock := LockFor(net, Observe(log));
      if lock.Some? {
        var f: nat :| l < f && CreditedAt(net, states, evs, f, n, lock.value);
        CreditedStays(net, states, evs, states', evs', f, n, lock.value);
      }
    }
  }

  lemma CreditedStays(net: Net, states: seq<Sys>, evs: seq<Ev>, states': seq<Sys>, evs': seq<Ev>,
                      f: nat, n: nat, lock: Lock)
    requires CreditedAt(net, states, evs, f, n, lock) && states <= states' && evs <= evs'
    ensures CreditedAt(net, states', evs', f, n, lock)
  {
    if p: nat, i: nat :| PaidAt(states, evs, f, p, n, lock, i) { assert PaidAt(states', evs', f, p, n, lock, i); }
  }

  lemma IndexSeen(net: Net, plan: Plan, b: int, log: Log) returns (q: nat)
    requires plan.Query? && plan.from <= b <= plan.to && log in net.chain(b) && Counts(log)
    ensures q < |Seen(net, plan)| && Seen(net, plan)[q] == Observe(log)
  {
    LogIsIn(net, plan.from, plan.to, b, log);
    LogIsObserved(LogsIn(net, plan.from, plan.to), log);
    q :| 0 <= q < |Seen(net, plan)| && Seen(net, plan)[q] == Observe(log);
  }

  lemma LockOfLog(net: Net, log: Log)
    requires Counts(log) && log.decimals.value <= 18
    ensures LockFor(net, Observe(log)) == Some(Lock(net.ns, AmountOf(log)))
  {
    CastOfTransfer(log.value.value, log.decimals.value);
  }

  // ---------------------------------------------------------------- when a transfer is lost

  /** The statement at `p` settled invoice `i`, paying it unless somebody had settled or expired it
      since it was looked up. */
  ghost predicate SettledAt(states: seq<Sys>, evs: seq<Ev>, p: nat, i: nat) {
    && p < |evs| && p + 1 < |states| && evs[p].Pay?
    && states[p + 1].db == Settle(states[p].db, i, evs[p].days, evs[p].now)
    && i in states[p].db.invoices && (states[p].db.invoices[i].status == Pending ==> IsPaid(states[p + 1].db, i))
  }

  /** What becomes of a transfer in a block that the cursor has passed.  If the poll that passed the
      block counted nothing payable, at `c`, it looked up nothing at all; otherwise it looked the
      transfer up, at `f`, and if invoice `i` waited for it then, settled that, at `p`, before it
      moved the cursor, at `j`. */
  lemma WaitingIsSettled(net: Net, states: seq<Sys>, evs: seq<Ev>, m: nat, n: nat, b: int, log: Log, i: nat)
    returns (j: nat, c: nat, l: nat, f: nat, p: nat)
    requires IsRun(net, states, evs) && m <= n < |states| && states[m].cursor.Some?
    requires states[n].cursor.Some? && states[m].cursor.value < b <= states[n].cursor.value
    requires log in net.chain(b) && Counts(log) && log.decimals.value <= 18
    ensures m <= j < n && states[j].cursor.Some? && states[j].cursor.value < b && states[j + 1].cursor.Some?
    ensures b <= states[j + 1].cursor.value && c < l < j && PollSince(states, evs, c, j)
    ensures PayableAt(net, states, evs, c) == 0 ==> states[j].phase.Handling? && states[j].phase.obs == []
    ensures var lock := Lock(net.ns, AmountOf(log));
            PayableAt(net, states, evs, c) > 0 ==>
              && l < f < j && LooksUp(net, states, evs, f, lock)
              && (Waits(states[f].db, i, lock, evs[f].now) ==> f < p < j && SettledAt(states, evs, p, i))
  {
    j, c, l := NoBlockMissed(net, states, evs, m, n, b);
    f, p := 0, 0;
    var lock := Lock(net.ns, AmountOf(log));
    if PayableAt(net, states, evs, c) > 0 {
      f :| l < f && CreditedAt(net, states, evs, f, j, lock);
      LedgerKept(net, states, evs, f);
      if Waits(states[f].db, i, lock, evs[f].now) { p := CreditedPays(net, states, evs, f, j, lock, i); }
    }
  }

  lemma CreditedPays(net: Net, states: seq<Sys>, evs: seq<Ev>, f: nat, n: nat, lock: Lock, i: nat) returns (p: nat)
    requires CreditedAt(net, states, evs, f, n, lock) && Inv(states[f].db) && Waits(states[f].db, i, lock, evs[f].now)
    ensures f < p < n && SettledAt(states, evs, p, i)
  {
    var q: nat, h: nat :| PaidAt(states, evs, f, q, n, lock, h);
    p := q;
    assert InvoiceOk(states[f].db, i) && InvoiceOk(states[f].db, h);
  }

  /** It can be lost: the invoice is made once the poll has counted that nothing is payable, and the
      block that holds the transfer is skipped. */
  lemma LateInvoiceIsSkipped(net: Net, order: Order, amount: int, tip: nat) returns (states: seq<Sys>, evs: seq<Ev>)
    requires Grantable(order) && net.minConf >= 0
    ensures IsRun(net, states, evs) && |states| == 5
    ensures states[0].cursor == Some(tip) && states[4].cursor == Some(tip + 1)
    ensures states[4].phase.Idle? && Waits(states[4].db, 1, Lock(net.ns, amount), 0)
  {
    var lock := Lock(net.ns, amount);
    var s0 := Sys(Initial(map[]), Some(tip), Idle);
    evs := [Count(0), Other(DoCreate(order, lock, 1)), Look(tip + 1 + net.minConf), Save];
    var s1 := Next(net, s0, evs[0]);
    var s2 := Next(net, s1, evs[1]);
    var s3 := Next(net, s2, evs[2]);
    var s4 := Next(net, s3, evs[3]);
    states := [s0, s1, s2, s3, s4];
    InitialInv(map[]);
    assert Payable(s0.db, net.ns, 0) == {};
    assert s3.phase == Handling(Skip(tip + 1, tip + 1), [], 0);
    forall k | 0 <= k < |evs| ensures StepAt(net, states, evs, k) {}
  }

  // ---------------------------------------------------------------- undisturbed polls

  lemma ProcessLeavesNothingDue(s: State, lock: Lock, days: int, now: int)
    requires Inv(s)
    ensures Inv(Process(s, lock, days, now)) && NothingDue(Process(s, lock, days, now), lock, now)
  {
    var m := Match(s, lock, now);
    if m.Some? { StepKeeps(s, DoSettle(m.value, days, now)); }
    assert LockOk(s, lock);
    forall i ensures !Waits(Process(s, lock, days, now), i, lock, now) { assert InvoiceOk(s, i); }
  }

  /** When nobody comes between its lookup and its settling, a transfer does what `Process` says,
      and leaves no invoice waiting for its amount. */
  lemma UndisturbedIsProcess(net: Net, s: Sys, days: nat, now: int)
    requires Inv(s.db) && s.phase.Handling? && s.phase.k < |s.phase.obs|
    ensures var lock := LockFor(net, s.phase.obs[s.phase.k]);
            var t := Next(net, Next(net, s, Find(now)), Pay(days, now));
            lock.Some? ==> t.db == Process(s.db, lock.value, days, now) && NothingDue(t.db, lock.value, now)
  {
    var lock := LockFor(net, s.phase.obs[s.phase.k]);
    if lock.Some? { ProcessLeavesNothingDue(s.db, lock.value, days, now); }
  }
}
