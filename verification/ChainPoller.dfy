/** The poller of one chain, as it runs: scanChain and settle of viewer/billing.go, and Scan of
    viewer/chain_evm.go.  Other users of the ledger come in between any two of its statements. */
module ChainPoller {
  import opened Seqs
  import opened Decimal
  import opened Ledger
  import opened ChainScan

  datatype ScanError = NoScanError | DbFailed | RpcFailed

  /** What the outside does during one poll: what other users do to the ledger before each of its
      statements, which calls fail, where the chain's tip is, what the clock says and how many days
      each plan is for.  Settling and saving may fail with or without having been carried out. */
  datatype Outside = Outside(others: nat -> seq<Op>, countFails: bool, cursorFails: bool, latest: Option<int>,
                             logsFail: bool, matchFails: nat -> bool, settleFault: nat -> Fault, saveFault: Fault,
                             days: nat -> nat, now: nat -> int)

  /** What the scanner makes of the cursor's text. */
  function NextText(plan: Plan, cursor: string): string {
    match plan
    case Stay => cursor
    case StartAt(tip) => FormatInt(tip)
    case Skip(_, to) => FormatInt(to)
    case Query(_, to) => FormatInt(to)
  }

  lemma NextTextReads(plan: Plan, cursor: string)
    ensures ParseInt(NextText(plan, cursor)) == NextCursor(plan, ParseInt(cursor))
  {
    match plan
    case Stay =>
    case StartAt(tip) => ParseFormatInt(tip);
    case Skip(_, to) => ParseFormatInt(to);
    case Query(_, to) => ParseFormatInt(to);
  }

  /** The cursor's text `was` becomes `next` when the blocks up to `safe` lie deep enough: an unset
      cursor starts there, and a set one moves on to it, by at most 2000 blocks; nothing moves when
      there is no such block that is new. */
  predicate Advances(was: string, safe: int, next: string) {
    var at := ParseInt(was);
    if safe < 0 || (at.Some? && at.value >= safe) then next == was
    else if at == None then ParseInt(next) == Some(safe)
    else ParseInt(next) == Some(if at.value + 2000 < safe then at.value + 2000 else safe)
  }

  lemma PlanAdvances(was: string, latest: int, minConf: int, want: bool)
    ensures Advances(was, latest - minConf, NextText(PlanScan(ParseInt(was), latest, minConf, want), was))
  {
    NextTextReads(PlanScan(ParseInt(was), latest, minConf, want), was);
  }

  /** The connection, or the database, fails at some point of the poll. */
  ghost predicate Fails(o: Outside) {
    || o.countFails || o.cursorFails || o.saveFault != NoFault
    || exists i: nat :: o.matchFails(i) || o.settleFault(i) != NoFault
  }

  class Poller {
    const net: Net
    const store: Store
    var cursor: string  // this chain's row of billing_chain_cursors
    ghost var states: seq<Sys>
    ghost var evs: seq<Ev>

    /** What has happened so far is an interleaving that ends in the present. */
    ghost predicate Valid()
      reads this, store
    {
      && store.Valid() && IsRun(net, states, evs)
      && states[|evs|].db == store.db && states[|evs|].cursor == ParseInt(cursor)
    }

    ghost function Phase(): Phase
      requires |states| == |evs| + 1
      reads this
    {
      states[|evs|].phase
    }

    /** History only grows. */
    twostate predicate Grown()
      reads this
    {
      old(states) <= states && old(evs) <= evs
    }

    constructor (net: Net, store: Store, cursor: string)
      requires store.Valid()
      ensures Valid() && Phase() == Idle && fresh(this)
      ensures this.net == net && this.store == store && this.cursor == cursor && evs == []
    {
      this.net, this.store, this.cursor := net, store, cursor;
      states, evs := [Sys(store.db, ParseInt(cursor), Idle)], [];
    }

    /** Adds what has just been done to the history. */
    ghost method Record(ev: Ev)
      requires store.Valid() && IsRun(net, states, evs)
      requires Next(net, states[|evs|], ev).db == store.db && Next(net, states[|evs|], ev).cursor == ParseInt(cursor)
      modifies this`states, this`evs
      ensures Valid() && Grown() && |evs| == |old(evs)| + 1 && evs[|old(evs)|] == ev
      ensures states[|evs|] == Next(net, old(states)[|old(evs)|], ev)
    {
      RunOneMore(net, states, evs, ev);
      states, evs := states + [Next(net, states[|evs|], ev)], evs + [ev];
    }

    /** What other users of the ledger do. */
    method Others(ops: seq<Op>)
      requires Valid()
      modifies this`states, this`evs, store
      ensures Valid() && Grown() && Phase() == old(Phase())
      ensures forall i :: i in old(store.db).invoices ==> i in store.db.invoices
    {
      for k := 0 to |ops|
        invariant Valid() && Grown() && Phase() == old(Phase())
        invariant forall i :: i in old(store.db).invoices ==> i in store.db.invoices
      {
        StepKeeps(store.db, ops[k]);
        forall i | i in store.db.invoices ensures i in Step(store.db, ops[k]).invoices {
          StepIsFinal(store.db, ops[k], i);
        }
        store.db := Step(store.db, ops[k]);
        Record(Other(ops[k]));
      }
    }

    /** The transfers among some logs, in their order. */
    method CollectObservations(logs: seq<Log>) returns (obs: seq<Observed>)
      ensures obs == Observations(logs)
    {
      obs := [];
      for i := 0 to |logs|
        invariant obs == Observations(logs[..i])
      {
        TakeMore(logs, i);
        SplitLast(logs[..i], logs[i]);
        if logs[i].decimals == None {
          continue;
        }
        if logs[i].value == None {
          continue;
        }
        obs := obs + [Observed(ScaleDecimal(logs[i].value.value, logs[i].decimals.value), logs[i].txHash)];
      }
      assert logs[..|logs|] == logs;
    }

    /** One scan: the transfers in the range it asks for, and where the cursor should go next. */
    method Scan(wantPayments: bool, latest: Option<int>, logsFail: bool)
      returns (obs: seq<Observed>, next: string, err: ScanError)
      ensures latest == None ==> err == RpcFailed
      ensures err == RpcFailed ==> next == cursor && obs == []
      ensures latest.Some? ==>
                var plan := PlanScan(ParseInt(cursor), latest.value, net.minConf, wantPayments);
                if plan.Query? && logsFail then err == RpcFailed
                else err == NoScanError && next == NextText(plan, cursor) && obs == Seen(net, plan)
      ensures err == NoScanError ==> latest.Some? && Advances(cursor, latest.value - net.minConf, next)
      ensures err != NoScanError ==> latest == None || logsFail
    {
      obs, next, err := ScanRange(wantPayments, latest, logsFail);
      if err == NoScanError { PlanAdvances(cursor, latest.value, net.minConf, wantPayments); }
    }

    method ScanRange(wantPayments: bool, latest: Option<int>, logsFail: bool)
      returns (obs: seq<Observed>, next: string, err: ScanError)
      ensures latest == None ==> err == RpcFailed
      ensures err == RpcFailed ==> next == cursor && obs == [] && (latest == None || logsFail)
      ensures latest.Some? ==>
                var plan := PlanScan(ParseInt(cursor), latest.value, net.minConf, wantPayments);
                if plan.Query? && logsFail then err == RpcFailed
                else err == NoScanError && next == NextText(plan, cursor) && obs == Seen(net, plan)
    {
      obs, next, err := [], cursor, NoScanError;
      if latest == None {
        return obs, next, RpcFailed;
      }
      var safeTo := latest.value - net.minConf;
      if safeTo < 0 {
        return;
      }
      var from := ParseInt(cursor);
      if from == None {
        next := FormatInt(safeTo);
        return;
      }
      var f := from.value + 1;
      if f > safeTo {
        return;
      }
      var to := f + SCAN_CHUNK - 1;
      if to > safeTo {
        to := safeTo;
      }
      if !wantPayments {
        next := FormatInt(to);
        return;
      }
      if logsFail {
        err := RpcFailed;
        return;
      }
      obs := CollectObservations(LogsIn(net, f, to));
      next := FormatInt(to);
    }

    /** Gives the poll up. */
    ghost method GiveUp()
      requires Valid()
      modifies this`states, this`evs
      ensures Valid() && Grown() && Phase() == Idle
    {
      Record(Fail);
    }

    /** Looks up the invoice the `i`th transfer pays. */
    method FindInvoice(ghost plan: Plan, obs: seq<Observed>, i: nat, now: int) returns (m: Option<nat>)
      requires Valid() && i < |obs| && Phase() == Handling(plan, obs, i)
      modifies this`states, this`evs
      ensures Valid() && Grown()
      ensures Phase() == if m.Some? then Found(plan, obs, i, m.value) else Handling(plan, obs, i + 1)
      ensures m.Some? ==> m.value in store.db.invoices
    {
      m := None;
      var amount := Cast(obs[i].amount);
      if amount.Some? {
        m := store.MatchPendingInvoice(Lock(net.ns, amount.value), now);
        MatchMeans(store.db, Lock(net.ns, amount.value), now);
      }
      Record(Find(now));
    }

    /** At some point since `start`, an invoice had been made that cannot be granted. */
    ghost predicate RefusedSince(start: nat)
      reads this
    {
      exists n: nat, i: nat :: start <= n < |states| && Refused(states[n].db, i)
    }

    /** Settles the invoice that was found.  An error may or may not have been applied. */
    method Settles(ghost plan: Plan, ghost obs: seq<Observed>, ghost i: nat,
                   inv: nat, days: nat, now: int, fault: Fault)
      returns (err: ScanError)
      requires Valid() && i < |obs| && Phase() == Found(plan, obs, i, inv) && inv in store.db.invoices
      modifies this`states, this`evs, store
      ensures Valid() && Grown() && (err == NoScanError || err == DbFailed)
      ensures err == DbFailed ==> fault != NoFault || RefusedSince(|old(evs)|)
      ensures Phase() == if err == NoScanError then Handling(plan, obs, i + 1) else Idle
    {
      ghost var before := store.db;
      var ok, e := store.SettleInvoice(inv, days, now, fault);
      if e == NoError {
        Record(Pay(days, now));
        return NoScanError;
      }
      if store.db != before {
        Record(Pay(days, now));
      }
      GiveUp();
      err := DbFailed;
    }

    /** Match and settle for the `i`th transfer. */
    method HandleOne(ghost plan: Plan, obs: seq<Observed>, i: nat, o: Outside) returns (err: ScanError)
      requires Valid() && i < |obs| && Phase() == Handling(plan, obs, i)
      modifies this`states, this`evs, store
      ensures Valid() && Grown() && (err == NoScanError || err == DbFailed)
      ensures err == DbFailed ==> Fails(o) || RefusedSince(|old(evs)|)
      ensures Phase() == if err == NoScanError then Handling(plan, obs, i + 1) else Idle
    {
      Others(o.others(2 + 2 * i));
      if o.matchFails(i) {
        GiveUp();
        return DbFailed;
      }
      var m := FindInvoice(plan, obs, i, o.now(1 + i));
      if m == None {
        return NoScanError;
      }
      Others(o.others(3 + 2 * i));
      err := Settles(plan, obs, i, m.value, o.days(i), o.now(1 + i), o.settleFault(i));
    }

    /** Matches the transfers one by one and settles what they pay, stopping at an error. */
    method Handle(ghost plan: Plan, obs: seq<Observed>, o: Outside) returns (err: ScanError)
      requires Valid() && Phase() == Handling(plan, obs, 0)
      modifies this`states, this`evs, store
      ensures Valid() && Grown() && (err == NoScanError || err == DbFailed)
      ensures err == DbFailed ==> Fails(o) || RefusedSince(|old(evs)|)
      ensures Phase() == if err == NoScanError then Handling(plan, obs, |obs|) else Idle
    {
      for i := 0 to |obs|
        invariant Valid() && Grown() && Phase() == Handling(plan, obs, i)
      {
        err := HandleOne(plan, obs, i, o);
        if err != NoScanError {
          return;
        }
      }
      err := NoScanError;
    }

    /** Counts the payable invoices. */
    method CountPayable(now: int) returns (pending: nat)
      requires Valid() && Phase() == Idle
      modifies this`states, this`evs
      ensures Valid() && Grown() && Phase() == Counted(pending)
      ensures |evs| == |old(evs)| + 1 && evs[|old(evs)|] == Count(now)
      ensures pending == PayableAt(net, states, evs, |old(evs)|)
    {
      pending := store.CountPendingInvoices(net.ns, now);
      Record(Count(now));
    }

    /** Since `start`, every transfer in the blocks that the cursor moved over, from `was`, has been
        looked up and credited. */
    ghost predicate CreditedFrom(start: nat, was: string)
      reads this
    {
      ParseInt(was).Some? && ParseInt(cursor).Some? ==>
        CreditedBetween(start, ParseInt(was).value + 1, ParseInt(cursor).value)
    }

    ghost predicate CreditedBetween(start: nat, lo: int, hi: int)
      reads this
    {
      exists l: nat, n: nat :: start <= l && n <= |evs| && RangeHandled(net, states, evs, l, n, lo, hi)
    }

    lemma CreditedAsPlanned(start: nat, was: string, latest: int, plan: Plan)
      requires plan == PlanScan(ParseInt(was), latest, net.minConf, true) && cursor == NextText(plan, was)
      requires plan.Query? ==> CreditedBetween(start, plan.from, plan.to)
      ensures CreditedFrom(start, was)
    {
      NextTextReads(plan, was);
      if plan == Stay && ParseInt(was).Some? {
        var at := ParseInt(was).value;
        assert RangeHandled(net, states, evs, start, 0, at + 1, at);
        assert CreditedBetween(start, at + 1, at);
      }
    }

    /** One poll of the chain, from when its payable invoices are counted at `c`.  It adds to the
        history what it and the others have done meanwhile.  The cursor advances, or stays if
        anything fails; if only the reply to its saving is lost, it may have moved.  Unless nothing
        was payable, every transfer in the blocks it has moved over has been credited. */
    method ScanChain(o: Outside) returns (err: ScanError, ghost c: nat)
      requires Valid() && Phase() == Idle
      modifies this, store
      ensures Valid() && Grown() && Phase() == Idle
      ensures err == NoScanError ==> o.latest.Some?
      ensures err == NoScanError || cursor != old(cursor) ==>
                && o.latest.Some? && Advances(old(cursor), o.latest.value - net.minConf, cursor)
                && |old(evs)| <= c < |evs| && evs[c].Count?
                && (PayableAt(net, states, evs, c) > 0 ==> CreditedFrom(|old(evs)|, old(cursor)))
      ensures err != NoScanError && cursor != old(cursor) ==> o.saveFault == LostReply
      ensures err == RpcFailed ==> o.latest == None || o.logsFail
      ensures err == DbFailed ==> Fails(o) || RefusedSince(|old(evs)|)
    {
      c := 0;
      Others(o.others(0));
      if o.countFails {
        return DbFailed, c;
      }
      c := |evs|;
      var pending := CountPayable(o.now(0));
      err := ScanCounted(pending, o, c);
    }

    /** The poll once `pending` invoices have been counted at `start`. */
    method ScanCounted(pending: nat, o: Outside, ghost start: nat) returns (err: ScanError)
      requires Valid() && Phase() == Counted(pending) && start < |evs| && states[start].phase.Idle?
      modifies this, store
      ensures Valid() && Grown() && Phase() == Idle
      ensures err == NoScanError || cursor != old(cursor) ==>
                && o.latest.Some? && Advances(old(cursor), o.latest.value - net.minConf, cursor)
                && (pending > 0 ==> CreditedFrom(start, old(cursor)))
      ensures err != NoScanError && cursor != old(cursor) ==> o.saveFault == LostReply
      ensures err == RpcFailed ==> o.latest == None || o.logsFail
      ensures err == DbFailed ==> Fails(o) || RefusedSince(|old(evs)|)
    {
      Others(o.others(1));
      if o.cursorFails {
        GiveUp();
        return DbFailed;
      }
      var obs, next;
      obs, next, err := Scan(pending > 0, o.latest, o.logsFail);
      if err != NoScanError {
        GiveUp();
        return;
      }
      err := ScanSeen(pending, obs, next, o, start);
    }

    /** The poll once the node has answered. */
    method ScanSeen(pending: nat, obs: seq<Observed>, next: string, o: Outside, ghost start: nat)
      returns (err: ScanError)
      requires Valid() && Phase() == Counted(pending) && start < |evs| && states[start].phase.Idle?
      requires o.latest.Some?
      requires var plan := PlanScan(ParseInt(cursor), o.latest.value, net.minConf, pending > 0);
               next == NextText(plan, cursor) && obs == Seen(net, plan)
      modifies this, store
      ensures Valid() && Grown() && Phase() == Idle
      ensures err == NoScanError || cursor != old(cursor) ==>
                && Advances(old(cursor), o.latest.value - net.minConf, cursor)
                && (pending > 0 ==> CreditedFrom(start, old(cursor)))
      ensures err != NoScanError && cursor != old(cursor) ==> o.saveFault == LostReply
      ensures err == NoScanError || err == DbFailed
      ensures err == DbFailed ==> Fails(o) || RefusedSince(|old(evs)|)
    {
      Record(Look(o.latest.value));
      ghost var was, plan := cursor, PlanScan(ParseInt(cursor), o.latest.value, net.minConf, pending > 0);
      PlanAdvances(was, o.latest.value, net.minConf, pending > 0);
      err := ScanPlanned(next, plan, obs, o, start);
      if (err == NoScanError || cursor != was) && pending > 0 {
        CreditedAsPlanned(start, was, o.latest.value, plan);
      }
    }

    /** The poll once it has seen the transfers of its range. */
    method ScanPlanned(next: string, ghost plan: Plan, obs: seq<Observed>, o: Outside, ghost start: nat)
      returns (err: ScanError)
      requires Valid() && Phase() == Handling(plan, obs, 0) && next == NextText(plan, cursor)
      requires start < |evs| && states[start].phase.Idle?
      modifies this, store
      ensures Valid() && Grown() && Phase() == Idle
      ensures err == NoScanError || cursor != old(cursor) ==> cursor == next
      ensures (err == NoScanError || cursor != old(cursor)) && plan.Query? ==>
                CreditedBetween(start, plan.from, plan.to)
      ensures err != NoScanError && cursor != old(cursor) ==> o.saveFault == LostReply
      ensures err == NoScanError || err == DbFailed
      ensures err == DbFailed ==> Fails(o) || RefusedSince(|old(evs)|)
    {
      err := Handle(plan, obs, o);
      if err != NoScanError {
        return;
      }
      ghost var st, ev, l := states, evs, 0;
      if plan.Query? { l := AllHandled(start); }
      Others(o.others(2 + 2 * |obs|));
      err := SaveCursor(next, plan, obs, o.saveFault);
      if plan.Query? { HandledStays(net, st, ev, states, evs, l, |ev|, plan.from, plan.to); }
    }

    /** Once everything has been handled, so has all of the range. */
    lemma AllHandled(start: nat) returns (l: nat)
      requires Valid() && start < |evs| && states[start].phase.Idle? && Phase().Handling?
      requires Phase().plan.Query? && Phase().k == |Phase().obs|
      ensures start <= l && RangeHandled(net, states, evs, l, |evs|, Phase().plan.from, Phase().plan.to)
    {
      PollsAreSound(net, states, evs, |evs|);
      var Handling(plan, obs, k) := Phase();
      var c: nat;
      c, l :| HandlingSince(net, states, evs, c, l, |evs|, plan, obs, k);
      assert c >= start;
      RangeIsHandled(net, states, evs, c, l, |evs|, plan, obs);
    }

    /** Saves the cursor, if it has moved. */
    method SaveCursor(next: string, ghost plan: Plan, ghost obs: seq<Observed>, fault: Fault) returns (err: ScanError)
      requires Valid() && Phase() == Handling(plan, obs, |obs|) && next == NextText(plan, cursor)
      modifies this
      ensures Valid() && Grown() && Phase() == Idle
      ensures cursor == if next != old(cursor) && fault == LostRequest then old(cursor) else next
      ensures err == NoScanError || (err == DbFailed && fault != NoFault)
      ensures err == NoScanError ==> cursor == next
    {
      NextTextReads(plan, cursor);
      if next != cursor {
        if fault == LostRequest {
          GiveUp();
          return DbFailed;
        }
        cursor := next;
        Record(Save);
        return if fault == NoFault then NoScanError else DbFailed;
      }
      Record(Save);
      err := NoScanError;
    }
  }

  lemma RunOneMore(net: Net, states: seq<Sys>, evs: seq<Ev>, ev: Ev)
    requires IsRun(net, states, evs)
    ensures IsRun(net, states + [Next(net, states[|evs|], ev)], evs + [ev])
  {
    var states', evs' := states + [Next(net, states[|evs|], ev)], evs + [ev];
    forall k | 0 <= k < |evs'| ensures StepAt(net, states', evs', k) {
      if k < |evs| { assert StepAt(net, states, evs, k); }
    }
  }
}
