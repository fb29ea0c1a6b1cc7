/** Reference-counted viewers and their delayed drops: viewer/watchtracker.go.

    A drop runs from a timer whose callback takes the lock again, so a callback may already be
    waiting for the lock when its timer is stopped or replaced.  Timers are therefore modelled
    with the moment they fire (ArmedT to FiredT) apart from the moment their callback gets the
    lock (FiredT to DoneT). */
module WatchTracker {
  import opened Seqs
  import opened Decimal

  datatype Id = Id(text: string)
  datatype Session = Session(hash: Id, lastSeen: int)

  datatype Status = ArmedT | FiredT | StoppedT | DoneT
  datatype Timer = Timer(hash: Id, status: Status, armedAt: int)
  datatype Drop = Drop(hash: Id, at: int)

  /** `timers` lists every timer ever started, `drops` the drops decided, in order, with when they
      were, and `called` those of them that the manager has been called for.  `left` holds when each
      torrent last lost its last viewer. */
  datatype State = State(sessions: map<Id, Session>, counts: map<Id, nat>, pending: map<Id, nat>,
                         timers: seq<Timer>, drops: seq<Drop>, called: set<nat>,
                         clock: int, left: map<Id, int>)

  const INITIAL := State(map[], map[], map[], [], [], {}, 0, map[])

  function Watchers(sessions: map<Id, Session>, h: Id): set<Id> {
    set s | s in sessions && sessions[s].hash == h
  }

  function Count(s: State, h: Id): nat {
    if h in s.counts then s.counts[h] else 0
  }

  // ---------------------------------------------------------------- specification

  function Stop(timers: seq<Timer>, i: nat): seq<Timer> {
    if i < |timers| && timers[i].status == ArmedT then timers[i := timers[i].(status := StoppedT)] else timers
  }

  /** One viewer fewer; a drop is scheduled if it was the last. */
  function Release(s: State, grace: int, h: Id): State {
    if Count(s, h) <= 1 then ScheduleDrop(s.(counts := s.counts - {h}, left := s.left[h := s.clock]), grace, h)
    else s.(counts := s.counts[h := s.counts[h] - 1])
  }

  function ScheduleDrop(s: State, grace: int, h: Id): State {
    if grace <= 0 then
      s.(drops := s.drops + [Drop(h, s.clock)])
    else
      var timers := if h in s.pending then Stop(s.timers, s.pending[h]) else s.timers;
      s.(timers := timers + [Timer(h, ArmedT, s.clock)], pending := s.pending[h := |timers|])
  }

  function CancelPending(s: State, h: Id): State {
    if h in s.pending then s.(timers := Stop(s.timers, s.pending[h]), pending := s.pending - {h}) else s
  }

  function Join(s: State, id: Id, h: Id): State {
    CancelPending(s.(sessions := s.sessions[id := Session(h, s.clock)],
                     counts := s.counts[h := Count(s, h) + 1]), h)
  }

  function Beat(s: State, grace: int, id: Id, h: Id): State {
    if id.text == "" || h.text == "" then s
    else if id !in s.sessions then Join(s, id, h)
    else if s.sessions[id].hash == h then s.(sessions := s.sessions[id := Session(h, s.clock)])
    else Join(Release(s, grace, s.sessions[id].hash), id, h)
  }

  function Leave(s: State, grace: int, id: Id): State {
    if id !in s.sessions then s
    else Release(s.(sessions := s.sessions - {id}), grace, s.sessions[id].hash)
  }

  /** Ending the sessions `ids` one after the other. */
  function LeaveAll(s: State, grace: int, ids: seq<Id>): State {
    if ids == [] then s else Leave(LeaveAll(s, grace, ids[..|ids| - 1]), grace, ids[|ids| - 1])
  }

  function Expired(s: State, cutoff: int): set<Id> {
    set id | id in s.sessions && s.sessions[id].lastSeen < cutoff
  }

  predicate IsOrderOf(ids: seq<Id>, all: set<Id>) {
    (forall i, j :: 0 <= i < j < |ids| ==> ids[i] != ids[j]) && (set id | id in ids) == all
  }

  /** The clock does not go back. */
  function Tick(s: State, now: int): State {
    if now > s.clock then s.(clock := now) else s
  }

  /** Once its time has come the runtime starts the timer's callback, which now waits for the lock. */
  function Fire(s: State, grace: int, i: nat): State {
    if i < |s.timers| && s.timers[i].status == ArmedT && s.clock >= s.timers[i].armedAt + grace
    then s.(timers := s.timers[i := s.timers[i].(status := FiredT)]) else s
  }

  /** The callback under the lock: it forgets whatever timer is pending and looks at the count. */
  function Callback(s: State, i: nat): State {
    if i < |s.timers| && s.timers[i].status == FiredT then
      var h := s.timers[i].hash;
      var t := s.(timers := s.timers[i := s.timers[i].(status := DoneT)], pending := s.pending - {h});
      if Count(s, h) > 0 then t else t.(drops := s.drops + [Drop(h, s.clock)])
    else s
  }

  /** The manager is called for the `k`th decided drop. */
  function Call(s: State, k: nat): State {
    if k < |s.drops| then s.(called := s.called + {k}) else s
  }

  datatype Op =
    | DoBeat(id: Id, h: Id)
    | DoLeave(id: Id)
    | DoSweep(ids: seq<Id>)
    | DoFire(i: nat)
    | DoCallback(i: nat)
    | DoCall(k: nat)
    | DoTick(now: int)

  function Step(s: State, grace: int, op: Op): State {
    match op
    case DoBeat(id, h) => Beat(s, grace, id, h)
    case DoLeave(id) => if id.text == "" then s else Leave(s, grace, id)
    case DoSweep(ids) => LeaveAll(s, grace, ids)
    case DoFire(i) => Fire(s, grace, i)
    case DoCallback(i) => Callback(s, i)
    case DoCall(k) => Call(s, k)
    case DoTick(now) => Tick(s, now)
  }

  function RunFrom(s: State, grace: int, ops: seq<Op>): State {
    if ops == [] then s else Step(RunFrom(s, grace, ops[..|ops| - 1]), grace, ops[|ops| - 1])
  }

  function Run(grace: int, ops: seq<Op>): State {
    RunFrom(INITIAL, grace, ops)
  }

  /** A heartbeat that watches `h`. */
  predicate Joins(op: Op, h: Id) {
    op.DoBeat? && op.h == h && op.id.text != "" && h.text != ""
  }

  ghost predicate Unwatched(s: State, h: Id) {
    Watchers(s.sessions, h) == {}
  }

  // ---------------------------------------------------------------- the invariant

  predicate Live(s: State, i: nat, h: Id) {
    i < |s.timers| && s.timers[i].hash == h && (s.timers[i].status == ArmedT || s.timers[i].status == FiredT)
  }

  ghost predicate Counted(s: State, h: Id) {
    Count(s, h) == |Watchers(s.sessions, h)| && (h in s.counts ==> s.counts[h] > 0)
  }

  /** Everything but the counts. */
  ghost predicate Tracked(s: State) {
    forall h :: h in s.pending ==> h !in s.counts && Live(s, s.pending[h], h)
  }

  ghost predicate Inv(s: State) {
    Tracked(s) && forall h :: Counted(s, h)
  }

  lemma WatchersAfterLeave(sessions: map<Id, Session>, id: Id, h: Id)
    requires id in sessions
    ensures |Watchers(sessions - {id}, h)| == |Watchers(sessions, h)| - (if sessions[id].hash == h then 1 else 0)
  {
    assert Watchers(sessions - {id}, h) == Watchers(sessions, h) - {id};
  }

  lemma WatchersAfterJoin(sessions: map<Id, Session>, id: Id, h: Id, now: int, g: Id)
    requires id !in sessions
    ensures |Watchers(sessions[id := Session(h, now)], g)| == |Watchers(sessions, g)| + (if g == h then 1 else 0)
  {
    assert Watchers(sessions[id := Session(h, now)], g) == Watchers(sessions, g) + (if g == h then {id} else {});
  }

  lemma ReleaseKeeps(s: State, grace: int, h: Id)
    requires Tracked(s) && h in s.counts && s.counts[h] > 0
    ensures Tracked(Release(s, grace, h)) && Release(s, grace, h).sessions == s.sessions
    ensures forall g :: Count(Release(s, grace, h), g) == if g == h then Count(s, h) - 1 else Count(s, g)
    ensures (forall g :: g in s.counts ==> s.counts[g] > 0) ==>
              forall g :: g in Release(s, grace, h).counts ==> Release(s, grace, h).counts[g] > 0
  {}

  lemma LeaveKeeps(s: State, grace: int, id: Id)
    requires Inv(s)
    ensures Inv(Leave(s, grace, id))
  {
    if id in s.sessions {
      var h := s.sessions[id].hash;
      assert Counted(s, h) && id in Watchers(s.sessions, h);
      var s1 := s.(sessions := s.sessions - {id});
      forall g ensures g in s.counts ==> s.counts[g] > 0 { assert Counted(s, g); }
      ReleaseKeeps(s1, grace, h);
      forall g ensures Counted(Leave(s, grace, id), g) {
        assert Counted(s, g);
        WatchersAfterLeave(s.sessions, id, g);
      }
    }
  }

  lemma JoinKeeps(s: State, id: Id, h: Id)
    requires Inv(s) && id !in s.sessions
    ensures Inv(Join(s, id, h))
  {
    forall g ensures Counted(Join(s, id, h), g) {
      assert Counted(s, g);
      WatchersAfterJoin(s.sessions, id, h, s.clock, g);
    }
  }

  lemma BeatKeeps(s: State, grace: int, id: Id, h: Id)
    requires Inv(s)
    ensures Inv(Beat(s, grace, id, h))
  {
    if id.text == "" || h.text == "" {
    } else if id !in s.sessions {
      JoinKeeps(s, id, h);
    } else if s.sessions[id].hash == h {
      forall g ensures Counted(Beat(s, grace, id, h), g) {
        assert Counted(s, g);
        assert Watchers(Beat(s, grace, id, h).sessions, g) == Watchers(s.sessions, g);
      }
    } else {
      LeaveKeeps(s, grace, id);
      JoinKeeps(Leave(s, grace, id), id, h);
      SwitchIsLeaveAndJoin(s, grace, id, h);
    }
  }

  /** Switching source is leaving one torrent and joining the other. */
  lemma SwitchIsLeaveAndJoin(s: State, grace: int, id: Id, h: Id)
    requires id.text != "" && h.text != "" && id in s.sessions && s.sessions[id].hash != h
    ensures Beat(s, grace, id, h) == Beat(Leave(s, grace, id), grace, id, h)
    ensures Beat(s, grace, id, h) == Join(Leave(s, grace, id), id, h)
  {
    ReleaseIgnoresSessions(s, grace, s.sessions[id].hash, s.sessions - {id});
    assert (s.sessions - {id})[id := Session(h, s.clock)] == s.sessions[id := Session(h, s.clock)];
  }

  lemma ReleaseIgnoresSessions(s: State, grace: int, h: Id, sessions: map<Id, Session>)
    ensures Release(s.(sessions := sessions), grace, h) == Release(s, grace, h).(sessions := sessions)
    ensures Release(s, grace, h).sessions == s.sessions
  {
    var left := s.(counts := s.counts - {h}, left := s.left[h := s.clock]);
    ScheduleIgnoresSessions(left, grace, h, sessions);
  }

  lemma ScheduleIgnoresSessions(s: State, grace: int, h: Id, sessions: map<Id, Session>)
    ensures ScheduleDrop(s.(sessions := sessions), grace, h) == ScheduleDrop(s, grace, h).(sessions := sessions)
    ensures ScheduleDrop(s, grace, h).sessions == s.sessions
  {}

  lemma {:induction false} LeaveAllKeeps(s: State, grace: int, ids: seq<Id>)
    requires Inv(s)
    ensures Inv(LeaveAll(s, grace, ids))
  {
    if ids != [] {
      LeaveAllKeeps(s, grace, ids[..|ids| - 1]);
      LeaveKeeps(LeaveAll(s, grace, ids[..|ids| - 1]), grace, ids[|ids| - 1]);
    }
  }

  lemma CallbackKeeps(s: State, i: nat)
    requires Inv(s)
    ensures Inv(Callback(s, i))
  {
    var t := Callback(s, i);
    forall h ensures Counted(t, h) { assert Counted(s, h); }
    if i < |s.timers| { assert Counted(s, s.timers[i].hash); }
  }

  lemma StepKeeps(s: State, grace: int, op: Op)
    requires Inv(s)
    ensures Inv(Step(s, grace, op))
  {
    match op
    case DoBeat(id, h) => BeatKeeps(s, grace, id, h);
    case DoLeave(id) => LeaveKeeps(s, grace, id);
    case DoSweep(ids) => LeaveAllKeeps(s, grace, ids);
    case DoFire(i) => forall h ensures Counted(Fire(s, grace, i), h) { assert Counted(s, h); }
    case DoCallback(i) => CallbackKeeps(s, i);
    case DoCall(k) => forall h ensures Counted(Call(s, k), h) { assert Counted(s, h); }
    case DoTick(now) => forall h ensures Counted(Tick(s, now), h) { assert Counted(s, h); }
  }

  // ---------------------------------------------------------------- every run

  lemma {:induction false} RunFromKeeps(s: State, grace: int, ops: seq<Op>)
    requires Inv(s)
    ensures Inv(RunFrom(s, grace, ops))
  {
    if ops != [] {
      RunFromKeeps(s, grace, ops[..|ops| - 1]);
      StepKeeps(RunFrom(s, grace, ops[..|ops| - 1]), grace, ops[|ops| - 1]);
    }
  }

  lemma RunKeeps(grace: int, ops: seq<Op>)
    ensures Inv(Run(grace, ops))
  {
    forall h ensures Counted(INITIAL, h) {}
    RunFromKeeps(INITIAL, grace, ops);
  }

  /** After any sequence of heartbeats, leaves, sweeps, timer firings, late callbacks and manager
      calls: a count is the number of sessions, and a torrent with a drop pending is watched by
      nobody and has a timer that is armed, or whose callback waits. */
  lemma CountsAndTimers(grace: int, ops: seq<Op>)
    ensures var s := Run(grace, ops);
            && (forall h :: Count(s, h) == |Watchers(s.sessions, h)|)
            && (forall h :: h in s.pending ==> Unwatched(s, h) && Live(s, s.pending[h], h))
  {
    var s := Run(grace, ops);
    RunKeeps(grace, ops);
    forall h ensures Count(s, h) == |Watchers(s.sessions, h)| { assert Counted(s, h); }
    forall h | h in s.pending ensures Unwatched(s, h) { assert Counted(s, h); }
  }

  // ---------------------------------------------------------------- who is owed a drop

  lemma CountsAreWatchers(s: State, h: Id)
    requires Inv(s)
    ensures h in s.counts <==> !Unwatched(s, h)
  {
    assert Counted(s, h);
  }

  /** Since the first `d` drops, another drop of `h` has been decided. */
  ghost predicate DroppedSince(s: State, h: Id, d: nat) {
    exists k :: d <= k < |s.drops| && s.drops[k].hash == h
  }

  ghost predicate HasTimer(s: State, h: Id) {
    exists i: nat :: Live(s, i, h)
  }

  /** `h` is watched, or a timer is to decide about it, or its drop has been decided. */
  ghost predicate OwedOk(s: State, h: Id, d: nat) {
    d <= |s.drops| && (h in s.counts || HasTimer(s, h) || DroppedSince(s, h, d))
  }

  lemma LaterDrop(s: State, t: State, h: Id, d: nat)
    requires d <= |s.drops| && s.drops <= t.drops && DroppedSince(s, h, d)
    ensures DroppedSince(t, h, d)
  {
    var k :| d <= k < |s.drops| && s.drops[k].hash == h;
    assert t.drops[k].hash == h;
  }

  lemma LeaveOwes(s: State, grace: int, id: Id, h: Id, d: nat)
    requires Inv(s) && OwedOk(s, h, d)
    ensures OwedOk(Leave(s, grace, id), h, d)
  {
    var t := Leave(s, grace, id);
    if id in s.sessions {
      var g := s.sessions[id].hash;
      CountsAreWatchers(s, g);
      assert id in Watchers(s.sessions, g);
      ReleaseIgnoresSessions(s, grace, g, s.sessions - {id});
      if DroppedSince(s, h, d) { LaterDrop(s, t, h, d); }
      if g == h && h !in t.counts {
        if grace <= 0 { assert t.drops[|s.drops|].hash == h; } else { assert Live(t, |s.timers|, h); }
      }
      if i: nat :| Live(s, i, h) {
        if g != h { assert Live(t, i, h); }
      }
    }
  }

  lemma JoinOwes(s: State, id: Id, g: Id, h: Id, d: nat)
    requires Inv(s) && OwedOk(s, h, d)
    ensures OwedOk(Join(s, id, g), h, d)
  {
    var t := Join(s, id, g);
    if DroppedSince(s, h, d) { LaterDrop(s, t, h, d); }
    if i: nat :| Live(s, i, h) {
      if g != h { assert Live(t, i, h); }
    }
  }

  lemma CallbackOwes(s: State, i: nat, h: Id, d: nat)
    requires Inv(s) && OwedOk(s, h, d)
    ensures OwedOk(Callback(s, i), h, d)
  {
    var t := Callback(s, i);
    if DroppedSince(s, h, d) { LaterDrop(s, t, h, d); }
    if j: nat :| Live(s, j, h) {
      if i != j { assert Live(t, j, h); }
      if i == j && t.drops != s.drops { assert t.drops[|s.drops|].hash == h; }
      if i == j && t == s { assert Live(t, j, h); }
    }
  }

  lemma FireOwes(s: State, grace: int, i: nat, h: Id, d: nat)
    requires OwedOk(s, h, d)
    ensures OwedOk(Fire(s, grace, i), h, d)
  {
    if DroppedSince(s, h, d) { LaterDrop(s, Fire(s, grace, i), h, d); }
    if j: nat :| Live(s, j, h) { assert Live(Fire(s, grace, i), j, h); }
  }

  lemma {:induction false} LeaveAllOwes(s: State, grace: int, ids: seq<Id>, h: Id, d: nat)
    requires Inv(s) && OwedOk(s, h, d)
    ensures OwedOk(LeaveAll(s, grace, ids), h, d)
  {
    if ids != [] {
      LeaveAllOwes(s, grace, ids[..|ids| - 1], h, d);
      LeaveAllKeeps(s, grace, ids[..|ids| - 1]);
      LeaveOwes(LeaveAll(s, grace, ids[..|ids| - 1]), grace, ids[|ids| - 1], h, d);
    }
  }

  lemma StepOwes(s: State, grace: int, op: Op, h: Id, d: nat)
    requires Inv(s) && OwedOk(s, h, d)
    ensures OwedOk(Step(s, grace, op), h, d)
  {
    match op
    case DoBeat(id, g) =>
      if id.text != "" && g.text != "" && id in s.sessions && s.sessions[id].hash != g {
        LeaveOwes(s, grace, id, h, d);
        LeaveKeeps(s, grace, id);
        SwitchIsLeaveAndJoin(s, grace, id, g);
        JoinOwes(Leave(s, grace, id), id, g, h, d);
      } else if id.text != "" && g.text != "" && id !in s.sessions {
        JoinOwes(s, id, g, h, d);
      } else {
        SameButSessions(s, Beat(s, grace, id, g), h, d);
      }
    case DoLeave(id) => LeaveOwes(s, grace, id, h, d);
    case DoSweep(ids) => LeaveAllOwes(s, grace, ids, h, d);
    case DoFire(i) => FireOwes(s, grace, i, h, d);
    case DoCallback(i) => CallbackOwes(s, i, h, d);
    case DoCall(k) => SameButSessions(s, Call(s, k), h, d);
    case DoTick(now) => SameButSessions(s, Tick(s, now), h, d);
  }

  lemma SameButSessions(s: State, t: State, h: Id, d: nat)
    requires OwedOk(s, h, d) && t.counts == s.counts && t.timers == s.timers && t.drops == s.drops
    ensures OwedOk(t, h, d)
  {
    if i: nat :| Live(s, i, h) { assert Live(t, i, h); }
  }

  /** A torrent that was watched and no longer is has a timer that is armed, or whose callback
      waits, or else its drop has been decided since. */
  lemma LostViewersAreOwed(grace: int, ops: seq<Op>, k: nat, h: Id)
    requires k <= |ops| && !Unwatched(Run(grace, ops[..k]), h) && Unwatched(Run(grace, ops), h)
    ensures HasTimer(Run(grace, ops), h) || DroppedSince(Run(grace, ops), h, |Run(grace, ops[..k]).drops|)
  {
    OwedEver(grace, ops, k, h);
    RunKeeps(grace, ops);
    CountsAreWatchers(Run(grace, ops), h);
  }

  lemma {:induction false} OwedEver(grace: int, ops: seq<Op>, k: nat, h: Id)
    requires k <= |ops| && !Unwatched(Run(grace, ops[..k]), h)
    ensures OwedOk(Run(grace, ops), h, |Run(grace, ops[..k]).drops|)
  {
    if k == |ops| {
      assert ops[..k] == ops;
      RunKeeps(grace, ops);
      CountsAreWatchers(Run(grace, ops), h);
    } else {
      var before := ops[..|ops| - 1];
      assert before[..k] == ops[..k];
      OwedEver(grace, before, k, h);
      RunKeeps(grace, before);
      StepOwes(Run(grace, before), grace, ops[|ops| - 1], h, |Run(grace, ops[..k]).drops|);
    }
  }

  /** A drop is decided only when no session watches the torrent any more, whichever timer the
      callback came from. */
  lemma DropsOnlyUnwatched(s: State, grace: int, op: Op)
    requires Inv(s)
    ensures DropsUnwatched(s, Step(s, grace, op))
  {
    match op
    case DoBeat(id, h) =>
      if id.text != "" && h.text != "" && id in s.sessions && s.sessions[id].hash != h {
        LeaveDrops(s, grace, id);
        SwitchIsLeaveAndJoin(s, grace, id, h);
        JoinDrops(s, Leave(s, grace, id), id, h, s.sessions[id].hash);
      }
    case DoLeave(id) => LeaveDrops(s, grace, id);
    case DoSweep(ids) => LeaveAllDrops(s, grace, ids);
    case DoFire(i) =>
    case DoCallback(i) => if i < |s.timers| { assert Counted(s, s.timers[i].hash); }
    case DoCall(k) =>
    case DoTick(now) =>
  }

  /** Every drop decided from `s` to `t` is of a torrent no session watches in `t`. */
  ghost predicate DropsUnwatched(s: State, t: State) {
    s.drops <= t.drops && forall k :: |s.drops| <= k < |t.drops| ==> Watchers(t.sessions, t.drops[k].hash) == {}
  }

  lemma LeaveDrops(s: State, grace: int, id: Id)
    requires Inv(s)
    ensures DropsUnwatched(s, Leave(s, grace, id))
    ensures id in s.sessions ==>
              var t := Leave(s, grace, id);
              t.drops == s.drops || t.drops == s.drops + [Drop(s.sessions[id].hash, s.clock)]
  {
    LeaveKeeps(s, grace, id);
    if id in s.sessions {
      var h := s.sessions[id].hash;
      assert Counted(s, h);
      WatchersAfterLeave(s.sessions, id, h);
      ReleaseIgnoresSessions(s, grace, h, s.sessions - {id});
    }
  }

  lemma JoinDrops(s: State, t: State, id: Id, h: Id, g: Id)
    requires DropsUnwatched(s, t) && h != g && (t.drops == s.drops || t.drops == s.drops + [Drop(g, s.clock)])
    ensures DropsUnwatched(s, Join(t, id, h))
  {
    var u := Join(t, id, h);
    if t.drops != s.drops {
      assert t.drops[|s.drops|].hash == g;
      assert Watchers(u.sessions, g) <= Watchers(t.sessions, g);
    }
  }

  lemma {:induction false} LeaveAllDrops(s: State, grace: int, ids: seq<Id>)
    requires Inv(s)
    ensures DropsUnwatched(s, LeaveAll(s, grace, ids))
  {
    if ids != [] {
      var n := |ids| - 1;
      var t := LeaveAll(s, grace, ids[..n]);
      LeaveAllDrops(s, grace, ids[..n]);
      LeaveAllKeeps(s, grace, ids[..n]);
      LeaveDrops(t, grace, ids[n]);
      var u := Leave(t, grace, ids[n]);
      if ids[n] in t.sessions {
        var without := t.(sessions := t.sessions - {ids[n]});
        ReleaseIgnoresSessions(without, grace, t.sessions[ids[n]].hash, t.sessions);
      }
      forall k | |s.drops| <= k < |u.drops| ensures Watchers(u.sessions, u.drops[k].hash) == {} {
        if k < |t.drops| { assert Watchers(u.sessions, u.drops[k].hash) <= Watchers(t.sessions, t.drops[k].hash); }
      }
    }
  }

  // ---------------------------------------------------------------- as long as nobody comes back

  predicate TimerOf(s: State, i: nat, h: Id) {
    i < |s.timers| && s.timers[i].hash == h
  }

  /** From `s` to `t` nothing happens to `h`: nobody watches it, and its timers stay as they are. */
  ghost predicate Quiet(s: State, t: State, h: Id) {
    && Unwatched(t, h) && s.drops <= t.drops && |s.timers| <= |t.timers|
    && (forall i: nat :: TimerOf(s, i, h) ==> TimerOf(t, i, h) && t.timers[i] == s.timers[i])
    && (forall i: nat :: TimerOf(t, i, h) ==> TimerOf(s, i, h))
  }

  lemma LeaveIsQuiet(s: State, grace: int, id: Id, h: Id)
    requires Inv(s) && Unwatched(s, h)
    ensures Quiet(s, Leave(s, grace, id), h)
  {
    if id in s.sessions {
      var g := s.sessions[id].hash;
      assert id in Watchers(s.sessions, g);
      ReleaseIgnoresSessions(s, grace, g, s.sessions - {id});
      assert Watchers(s.sessions - {id}, h) <= Watchers(s.sessions, h);
    }
  }

  lemma JoinIsQuiet(s: State, id: Id, g: Id, h: Id)
    requires Inv(s) && Unwatched(s, h) && g != h
    ensures Quiet(s, Join(s, id, g), h)
  {
    assert Watchers(Join(s, id, g).sessions, h) <= Watchers(s.sessions, h);
  }

  lemma {:induction false} LeaveAllIsQuiet(s: State, grace: int, ids: seq<Id>, h: Id)
    requires Inv(s) && Unwatched(s, h)
    ensures Quiet(s, LeaveAll(s, grace, ids), h)
  {
    if ids != [] {
      LeaveAllIsQuiet(s, grace, ids[..|ids| - 1], h);
      LeaveAllKeeps(s, grace, ids[..|ids| - 1]);
      LeaveIsQuiet(LeaveAll(s, grace, ids[..|ids| - 1]), grace, ids[|ids| - 1], h);
    }
  }

  predicate OfTimers(op: Op) {
    op.DoFire? || op.DoCallback?
  }

  lemma StepIsQuiet(s: State, grace: int, op: Op, h: Id)
    requires Inv(s) && Unwatched(s, h) && !Joins(op, h) && !OfTimers(op)
    ensures Quiet(s, Step(s, grace, op), h)
  {
    match op
    case DoBeat(id, g) =>
      if id.text == "" || g.text == "" {
      } else if id !in s.sessions {
        JoinIsQuiet(s, id, g, h);
      } else if s.sessions[id].hash == g {
        assert Watchers(Beat(s, grace, id, g).sessions, h) <= Watchers(s.sessions, h);
      } else {
        LeaveIsQuiet(s, grace, id, h);
        LeaveKeeps(s, grace, id);
        SwitchIsLeaveAndJoin(s, grace, id, g);
        JoinIsQuiet(Leave(s, grace, id), id, g, h);
      }
    case DoLeave(id) => LeaveIsQuiet(s, grace, id, h);
    case DoSweep(ids) => LeaveAllIsQuiet(s, grace, ids, h);
    case DoCall(k) =>
    case DoTick(now) =>
  }

  /** `h` has been left alone since timer `i` was armed for it at `at` and `d` drops had been decided: the
      timer is yet to decide, or has decided its drop. */
  ghost predicate Abandoned(s: State, h: Id, i: nat, at: int, d: nat) {
    && Unwatched(s, h) && TimerOf(s, i, h) && s.timers[i].armedAt == at && d <= |s.drops|
    && (Live(s, i, h) || (s.timers[i].status == DoneT && DroppedSince(s, h, d)))
  }

  lemma StepAbandons(s: State, grace: int, op: Op, h: Id, i: nat, at: int, d: nat)
    requires Inv(s) && Abandoned(s, h, i, at, d) && !Joins(op, h)
    ensures Abandoned(Step(s, grace, op), h, i, at, d)
  {
    var t := Step(s, grace, op);
    if !OfTimers(op) {
      StepIsQuiet(s, grace, op, h);
      if DroppedSince(s, h, d) { LaterDrop(s, t, h, d); }
    } else {
      CountsAreWatchers(s, h);
      if DroppedSince(s, h, d) { LaterDrop(s, t, h, d); }
      if op.DoCallback? && op.i == i && Live(s, i, h) && t != s { assert t.drops[|s.drops|].hash == h; }
    }
  }

  lemma {:induction false} RunAbandons(s: State, grace: int, ops: seq<Op>, h: Id, i: nat, at: int, d: nat)
    requires Inv(s) && Abandoned(s, h, i, at, d) && forall k :: 0 <= k < |ops| ==> !Joins(ops[k], h)
    ensures Abandoned(RunFrom(s, grace, ops), h, i, at, d)
  {
    if ops != [] {
      RunAbandons(s, grace, ops[..|ops| - 1], h, i, at, d);
      RunFromKeeps(s, grace, ops[..|ops| - 1]);
      StepAbandons(RunFrom(s, grace, ops[..|ops| - 1]), grace, ops[|ops| - 1], h, i, at, d);
    }
  }

  /** Whatever else happens, as long as nobody comes back a timer armed for a torrent leads to its
      drop: it has decided it, or will do so when it fires and its callback gets the lock. */
  lemma AbandonedIsDropped(s: State, grace: int, ops: seq<Op>, h: Id, i: nat, later: int)
    requires Inv(s) && Unwatched(s, h) && Live(s, i, h) && later >= s.timers[i].armedAt + grace
    requires forall k :: 0 <= k < |ops| ==> !Joins(ops[k], h)
    ensures var t := RunFrom(s, grace, ops);
            || (i < |t.timers| && t.timers[i].status == DoneT && DroppedSince(t, h, |s.drops|))
            || (Live(t, i, h) && DroppedSince(Callback(Fire(Tick(t, later), grace, i), i), h, |s.drops|))
  {
    var t := RunFrom(s, grace, ops);
    RunAbandons(s, grace, ops, h, i, s.timers[i].armedAt, |s.drops|);
    RunFromKeeps(s, grace, ops);
    CountsAreWatchers(t, h);
    if Live(t, i, h) { assert Callback(Fire(Tick(t, later), grace, i), i).drops[|t.drops|].hash == h; }
  }

  // ---------------------------------------------------------------- the grace period

  /** A torrent watched since timer `i` was armed is still watched, or has a newer timer. */
  ghost predicate Superseded(s: State, h: Id, i: nat) {
    i < |s.timers| && (h in s.counts || exists j: nat :: j > i && TimerOf(s, j, h))
  }

  /** No timer has been armed for `h` after `i`. */
  ghost predicate Newest(s: State, h: Id, i: nat) {
    forall j: nat :: TimerOf(s, j, h) ==> j <= i
  }

  lemma LeaveSupersedes(s: State, grace: int, id: Id, h: Id, i: nat)
    requires Inv(s) && Superseded(s, h, i) && grace > 0
    ensures Superseded(Leave(s, grace, id), h, i)
  {
    var t := Leave(s, grace, id);
    if id in s.sessions {
      var g := s.sessions[id].hash;
      assert id in Watchers(s.sessions, g);
      CountsAreWatchers(s, g);
      if g == h && h !in t.counts { assert TimerOf(t, |s.timers|, h); }
      if j: nat :| j > i && TimerOf(s, j, h) { assert TimerOf(t, j, h); }
    }
  }

  lemma {:induction false} LeaveAllSupersedes(s: State, grace: int, ids: seq<Id>, h: Id, i: nat)
    requires Inv(s) && Superseded(s, h, i) && grace > 0
    ensures Superseded(LeaveAll(s, grace, ids), h, i)
  {
    if ids != [] {
      LeaveAllSupersedes(s, grace, ids[..|ids| - 1], h, i);
      LeaveAllKeeps(s, grace, ids[..|ids| - 1]);
      LeaveSupersedes(LeaveAll(s, grace, ids[..|ids| - 1]), grace, ids[|ids| - 1], h, i);
    }
  }

  lemma JoinSupersedes(s: State, id: Id, g: Id, h: Id, i: nat)
    requires i < |s.timers| && (g == h || Superseded(s, h, i))
    ensures Superseded(Join(s, id, g), h, i)
  {
    if j: nat :| j > i && TimerOf(s, j, h) { assert TimerOf(Join(s, id, g), j, h); }
  }

  lemma SameTimersSupersede(s: State, t: State, h: Id, i: nat)
    requires Superseded(s, h, i) && (h in s.counts ==> h in t.counts) && |t.timers| == |s.timers|
    requires forall j: nat :: TimerOf(s, j, h) ==> TimerOf(t, j, h)
    ensures Superseded(t, h, i)
  {
    if j: nat :| j > i && TimerOf(s, j, h) { assert TimerOf(t, j, h); }
  }

  lemma BeatSupersedes(s: State, grace: int, id: Id, g: Id, h: Id, i: nat)
    requires Inv(s) && grace > 0 && i < |s.timers| && (Joins(DoBeat(id, g), h) || Superseded(s, h, i))
    ensures Superseded(Beat(s, grace, id, g), h, i)
  {
    if id.text == "" || g.text == "" {
    } else if id !in s.sessions {
      JoinSupersedes(s, id, g, h, i);
    } else if s.sessions[id].hash == g {
      CountsAreWatchers(s, g);
      assert id in Watchers(s.sessions, g);
      if g != h { SameTimersSupersede(s, Beat(s, grace, id, g), h, i); }
    } else {
      if Superseded(s, h, i) { LeaveSupersedes(s, grace, id, h, i); }
      SwitchIsLeaveAndJoin(s, grace, id, g);
      JoinSupersedes(Leave(s, grace, id), id, g, h, i);
    }
  }

  lemma StepSupersedes(s: State, grace: int, op: Op, h: Id, i: nat)
    requires Inv(s) && grace > 0 && i < |s.timers| && (Joins(op, h) || Superseded(s, h, i))
    ensures Superseded(Step(s, grace, op), h, i)
  {
    match op
    case DoBeat(id, g) => BeatSupersedes(s, grace, id, g, h, i);
    case DoLeave(id) => LeaveSupersedes(s, grace, id, h, i);
    case DoSweep(ids) => LeaveAllSupersedes(s, grace, ids, h, i);
    case _ => SameTimersSupersede(s, Step(s, grace, op), h, i);
  }

  /** While nobody watches a torrent, its timer stays the last one armed for it if and only if nobody
      has come back meanwhile. */
  lemma LastTimerIff(s: State, grace: int, ops: seq<Op>, h: Id, i: nat)
    requires Inv(s) && grace > 0 && Unwatched(s, h) && TimerOf(s, i, h) && Newest(s, h, i)
    requires Unwatched(RunFrom(s, grace, ops), h)
    ensures (forall k :: 0 <= k < |ops| ==> !Joins(ops[k], h)) <==> Newest(RunFrom(s, grace, ops), h, i)
  {
    var t := RunFrom(s, grace, ops);
    NewestOrSuperseded(s, grace, ops, h, i);
    RunFromKeeps(s, grace, ops);
    CountsAreWatchers(t, h);
  }

  lemma {:induction false} NewestOrSuperseded(s: State, grace: int, ops: seq<Op>, h: Id, i: nat)
    requires Inv(s) && grace > 0 && Unwatched(s, h) && TimerOf(s, i, h) && Newest(s, h, i)
    ensures var t := RunFrom(s, grace, ops);
            && i < |t.timers|
            && if forall k :: 0 <= k < |ops| ==> !Joins(ops[k], h) then Unwatched(t, h) && Newest(t, h, i)
               else Superseded(t, h, i)
  {
    if ops != [] {
      var before, op := ops[..|ops| - 1], ops[|ops| - 1];
      var u := RunFrom(s, grace, before);
      assert ops == before + [op];
      NewestOrSuperseded(s, grace, before, h, i);
      RunFromKeeps(s, grace, before);
      if (exists k :: 0 <= k < |before| && Joins(before[k], h)) || Joins(op, h) {
        StepSupersedes(u, grace, op, h, i);
        assert exists k :: 0 <= k < |ops| && Joins(ops[k], h) by {
          if k :| 0 <= k < |before| && Joins(before[k], h) {
            assert Joins(ops[k], h);
          } else {
            assert Joins(ops[|ops| - 1], h);
          }
        }
      } else {
        NewestStays(u, grace, op, h, i);
        forall k | 0 <= k < |ops| ensures !Joins(ops[k], h) { if k < |before| { assert ops[k] == before[k]; } }
      }
    }
  }

  lemma NewestStays(s: State, grace: int, op: Op, h: Id, i: nat)
    requires Inv(s) && Unwatched(s, h) && i < |s.timers| && Newest(s, h, i) && !Joins(op, h)
    ensures var t := Step(s, grace, op); Unwatched(t, h) && Newest(t, h, i) && i < |t.timers|
  {
    if !OfTimers(op) { StepIsQuiet(s, grace, op, h); }
    else { forall j: nat | TimerOf(Step(s, grace, op), j, h) ensures TimerOf(s, j, h) {} }
  }

  // ---------------------------------------------------------------- when the grace period is kept

  /** Timer `i` was armed no later than its torrent was last left, and fired no sooner than it may. */
  ghost predicate TimerOk(s: State, grace: int, i: nat) {
    i < |s.timers| ==>
      var x := s.timers[i];
      && x.hash in s.left && x.armedAt <= s.clock
      && (x.status == FiredT || x.status == DoneT ==> s.clock >= x.armedAt + grace)
  }

  /** Timer `i`, the last armed for `h`, was armed when its last viewer left, and is not stopped as
      long as nobody has come back. */
  ghost predicate ArmedByLeaving(s: State, h: Id, i: nat) {
    && TimerOf(s, i, h) && Newest(s, h, i)
    && h in s.left && s.timers[i].armedAt == s.left[h]
    && (s.timers[i].status == StoppedT ==> h in s.counts)
  }

  ghost predicate LeftOk(s: State, h: Id) {
    h in s.left ==> exists i: nat :: ArmedByLeaving(s, h, i)
  }

  ghost predicate Timed(s: State, grace: int) {
    (forall i: nat :: TimerOk(s, grace, i)) && (forall h :: LeftOk(s, h))
  }

  lemma SameTimer(s: State, t: State, h: Id, i: nat)
    requires ArmedByLeaving(s, h, i) && h in t.left && t.left[h] == s.left[h]
    requires TimerOf(t, i, h) && t.timers[i].armedAt == s.timers[i].armedAt
    requires forall j: nat :: TimerOf(t, j, h) ==> TimerOf(s, j, h)
    requires t.timers[i].status == StoppedT ==> h in t.counts
    ensures ArmedByLeaving(t, h, i)
  {}

  lemma ReleaseTimed(s: State, grace: int, h: Id)
    requires Timed(s, grace) && Tracked(s) && grace > 0 && h in s.counts
    ensures Timed(Release(s, grace, h), grace)
  {
    var t := Release(s, grace, h);
    forall i: nat ensures TimerOk(t, grace, i) { assert TimerOk(s, grace, i); }
    forall g ensures LeftOk(t, g) {
      assert LeftOk(s, g);
      if g == h && h !in t.counts {
        assert ArmedByLeaving(t, h, |s.timers|) by {
          forall j: nat | TimerOf(t, j, h) ensures j <= |s.timers| {}
        }
      } else if i: nat :| ArmedByLeaving(s, g, i) {
        SameTimer(s, t, g, i);
      }
    }
  }

  lemma LeaveTimed(s: State, grace: int, id: Id)
    requires Timed(s, grace) && Inv(s) && grace > 0
    ensures Timed(Leave(s, grace, id), grace)
  {
    if id in s.sessions {
      var h := s.sessions[id].hash;
      CountsAreWatchers(s, h);
      assert id in Watchers(s.sessions, h);
      var t := s.(sessions := s.sessions - {id});
      OnlySessions(s, t, grace);
      ReleaseTimed(t, grace, h);
    }
  }

  lemma OnlySessions(s: State, t: State, grace: int)
    requires Timed(s, grace) && t.timers == s.timers && t.counts == s.counts && t.left == s.left && t.clock >= s.clock
    ensures Timed(t, grace)
  {
    forall i: nat ensures TimerOk(t, grace, i) { assert TimerOk(s, grace, i); }
    forall g ensures LeftOk(t, g) {
      assert LeftOk(s, g);
      if i: nat :| ArmedByLeaving(s, g, i) { SameTimer(s, t, g, i); }
    }
  }

  lemma {:induction false} LeaveAllTimed(s: State, grace: int, ids: seq<Id>)
    requires Timed(s, grace) && Inv(s) && grace > 0
    ensures Timed(LeaveAll(s, grace, ids), grace)
  {
    if ids != [] {
      LeaveAllTimed(s, grace, ids[..|ids| - 1]);
      LeaveAllKeeps(s, grace, ids[..|ids| - 1]);
      LeaveTimed(LeaveAll(s, grace, ids[..|ids| - 1]), grace, ids[|ids| - 1]);
    }
  }

  lemma JoinTimed(s: State, grace: int, id: Id, h: Id)
    requires Timed(s, grace) && Tracked(s)
    ensures Timed(Join(s, id, h), grace)
  {
    var t := Join(s, id, h);
    forall i: nat ensures TimerOk(t, grace, i) { assert TimerOk(s, grace, i); }
    forall g ensures LeftOk(t, g) {
      assert LeftOk(s, g);
      if i: nat :| ArmedByLeaving(s, g, i) { SameTimer(s, t, g, i); }
    }
  }

  lemma BeatTimed(s: State, grace: int, id: Id, h: Id)
    requires Timed(s, grace) && Inv(s) && grace > 0
    ensures Timed(Beat(s, grace, id, h), grace)
  {
    if id.text == "" || h.text == "" {
    } else if id !in s.sessions {
      JoinTimed(s, grace, id, h);
    } else if s.sessions[id].hash == h {
      OnlySessions(s, Beat(s, grace, id, h), grace);
    } else {
      LeaveTimed(s, grace, id);
      LeaveKeeps(s, grace, id);
      SwitchIsLeaveAndJoin(s, grace, id, h);
      JoinTimed(Leave(s, grace, id), grace, id, h);
    }
  }

  lemma TimerStepTimed(s: State, grace: int, op: Op)
    requires Timed(s, grace) && OfTimers(op)
    ensures Timed(Step(s, grace, op), grace)
  {
    var t := Step(s, grace, op);
    assert op.i < |s.timers| ==> TimerOk(s, grace, op.i);
    forall i: nat ensures TimerOk(t, grace, i) { assert TimerOk(s, grace, i); }
    forall g ensures LeftOk(t, g) {
      assert LeftOk(s, g);
      if i: nat :| ArmedByLeaving(s, g, i) { SameTimer(s, t, g, i); }
    }
  }

  lemma StepTimed(s: State, grace: int, op: Op)
    requires Timed(s, grace) && Inv(s) && grace > 0
    ensures Timed(Step(s, grace, op), grace)
  {
    match op
    case DoBeat(id, h) => BeatTimed(s, grace, id, h);
    case DoLeave(id) => LeaveTimed(s, grace, id);
    case DoSweep(ids) => LeaveAllTimed(s, grace, ids);
    case DoFire(i) => TimerStepTimed(s, grace, op);
    case DoCallback(i) => TimerStepTimed(s, grace, op);
    case DoCall(k) => OnlySessions(s, Call(s, k), grace);
    case DoTick(now) => OnlySessions(s, Tick(s, now), grace);
  }

  lemma {:induction false} RunTimed(grace: int, ops: seq<Op>)
    requires grace > 0
    ensures Timed(Run(grace, ops), grace)
  {
    if ops == [] {
      forall i: nat ensures TimerOk(INITIAL, grace, i) {}
      forall h ensures LeftOk(INITIAL, h) {}
    } else {
      RunTimed(grace, ops[..|ops| - 1]);
      RunKeeps(grace, ops[..|ops| - 1]);
      StepTimed(Run(grace, ops[..|ops| - 1]), grace, ops[|ops| - 1]);
    }
  }

  function LeftOf(s: State, h: Id): Option<int> {
    if h in s.left then Some(s.left[h]) else None
  }

  /** From `s` to `t`, what is noted of `h` is that it was left just then, if it was. */
  predicate Departs(s: State, t: State, h: Id) {
    LeftOf(t, h) == if h in s.counts && h !in t.counts then Some(s.clock) else LeftOf(s, h)
  }

  lemma LeaveDeparts(s: State, grace: int, id: Id, h: Id)
    requires Inv(s)
    ensures var t := Leave(s, grace, id);
            && Departs(s, t, h) && t.clock == s.clock && (h in t.counts ==> h in s.counts)
            && (h in s.counts && h !in t.counts ==> id in s.sessions && s.sessions[id].hash == h)
  {
    if id in s.sessions {
      CountsAreWatchers(s, s.sessions[id].hash);
      assert id in Watchers(s.sessions, s.sessions[id].hash);
    }
  }

  lemma {:induction false} LeaveAllDeparts(s: State, grace: int, ids: seq<Id>, h: Id)
    requires Inv(s)
    ensures var t := LeaveAll(s, grace, ids);
            Departs(s, t, h) && t.clock == s.clock && (h in t.counts ==> h in s.counts)
  {
    if ids != [] {
      LeaveAllDeparts(s, grace, ids[..|ids| - 1], h);
      LeaveAllKeeps(s, grace, ids[..|ids| - 1]);
      LeaveDeparts(LeaveAll(s, grace, ids[..|ids| - 1]), grace, ids[|ids| - 1], h);
    }
  }

  lemma BeatDeparts(s: State, grace: int, id: Id, g: Id, h: Id)
    requires Inv(s)
    ensures Departs(s, Beat(s, grace, id, g), h)
  {
    if id.text != "" && g.text != "" && id in s.sessions && s.sessions[id].hash != g {
      SwitchIsLeaveAndJoin(s, grace, id, g);
      LeaveDeparts(s, grace, id, h);
    }
  }

  /** `left` holds the time of the operation that last left a torrent without viewers. */
  lemma LeftIsLastDeparture(s: State, grace: int, op: Op, h: Id)
    requires Inv(s)
    ensures var t := Step(s, grace, op);
            if !Unwatched(s, h) && Unwatched(t, h) then h in t.left && t.left[h] == s.clock
            else LeftOf(t, h) == LeftOf(s, h)
  {
    StepDeparts(s, grace, op, h);
    CountsAreWatchers(s, h);
    StepKeeps(s, grace, op);
    CountsAreWatchers(Step(s, grace, op), h);
  }

  lemma StepDeparts(s: State, grace: int, op: Op, h: Id)
    requires Inv(s)
    ensures Departs(s, Step(s, grace, op), h)
  {
    match op
    case DoBeat(id, g) => BeatDeparts(s, grace, id, g, h);
    case DoLeave(id) => LeaveDeparts(s, grace, id, h);
    case DoSweep(ids) => LeaveAllDeparts(s, grace, ids, h);
    case _ =>
  }

  /** When the callback of timer `i` decides a drop, it is at least the grace period since the last
      viewer left if and only if it is that long since the last timer for the torrent, `j`, was armed.
      It is if that timer is `i` itself; if it is not, `j` is newer and still armed. */
  lemma GraceIsKeptIff(grace: int, ops: seq<Op>, i: nat, h: Id, j: nat)
    requires grace > 0 && TimerOf(Run(grace, ops), j, h) && Newest(Run(grace, ops), h, j)
    requires TimerOf(Run(grace, ops), i, h) && Run(grace, ops).timers[i].status == FiredT
    requires Unwatched(Run(grace, ops), h)
    ensures var s := Run(grace, ops);
            && Callback(s, i).drops == s.drops + [Drop(h, s.clock)] && h in s.left
            && (s.clock >= s.left[h] + grace <==> s.clock >= s.timers[j].armedAt + grace)
            && (i == j ==> s.clock >= s.left[h] + grace)
            && (s.clock < s.left[h] + grace ==> j > i && s.timers[j].status == ArmedT)
  {
    var s := Run(grace, ops);
    RunTimed(grace, ops);
    RunKeeps(grace, ops);
    CountsAreWatchers(s, h);
    assert TimerOk(s, grace, i) && TimerOk(s, grace, j) && LeftOk(s, h);
    var k: nat :| ArmedByLeaving(s, h, k);
    assert k == j;
  }

  /** It can be too early: the callback of the first timer waits for the lock while a viewer comes
      back and leaves again.  The second timer is left to decide another drop. */
  lemma DropCanBeEarly(id: Id, h: Id)
    requires id.text != "" && h.text != ""
    ensures var fired := Fire(Tick(Leave(Beat(INITIAL, 5, id, h), 5, id), 5), 5, 0);
            var s := Callback(Leave(Beat(fired, 5, id, h), 5, id), 0);
            && s.left[h] == 5 && s.drops == [Drop(h, 5)]
            && Callback(Fire(Tick(s, 10), 5, 1), 1).drops == [Drop(h, 5), Drop(h, 10)]
  {
    var left := Leave(Beat(INITIAL, 5, id, h), 5, id);
    assert left.timers == [Timer(h, ArmedT, 0)] && h !in left.counts && id !in left.sessions;
    var fired := Fire(Tick(left, 5), 5, 0);
    assert fired.timers == [Timer(h, FiredT, 0)];
    var again := Leave(Beat(fired, 5, id, h), 5, id);
    assert again.timers == [Timer(h, FiredT, 0), Timer(h, ArmedT, 5)] && h !in again.counts;
  }

  // ---------------------------------------------------------------- when no callback is late

  /** Every callback gets the lock as soon as its timer fires. */
  predicate Prompt(ops: seq<Op>) {
    forall k | 0 < k < |ops| :: ops[k - 1].DoFire? ==> ops[k] == DoCallback(ops[k - 1].i)
  }

  /** A timer that can still decide is the pending one of its torrent, or `but`, which was. */
  ghost predicate ArmedIsPending(s: State, but: Option<nat>) {
    forall i: nat | i < |s.timers| :: ArmedOk(s, but, i)
  }

  predicate ArmedOk(s: State, but: Option<nat>, i: nat)
    requires i < |s.timers|
  {
    var x := s.timers[i];
    && (x.status == ArmedT ==> x.hash in s.pending && s.pending[x.hash] == i)
    && (x.status == FiredT ==> but == Some(i) && x.hash in s.pending && s.pending[x.hash] == i)
  }

  /** What is pending is the last timer armed for its torrent. */
  ghost predicate PendingIsNewest(s: State) {
    forall h | h in s.pending :: Newest(s, h, s.pending[h])
  }

  ghost predicate Orderly(s: State, but: Option<nat>) {
    ArmedIsPending(s, but) && PendingIsNewest(s)
  }

  lemma ReleaseIsOrderly(s: State, grace: int, h: Id)
    requires Orderly(s, None) && Tracked(s) && h in s.counts
    ensures Orderly(Release(s, grace, h), None)
  {
    var t := Release(s, grace, h);
    forall i: nat | i < |t.timers| ensures ArmedOk(t, None, i) {
      if i < |s.timers| { assert ArmedOk(s, None, i); }
    }
    forall g | g in t.pending ensures Newest(t, g, t.pending[g]) {
      forall j: nat | TimerOf(t, j, g) ensures j <= t.pending[g] {
        if j < |s.timers| && g in s.pending { assert TimerOf(s, j, g); }
      }
    }
  }

  lemma LeaveIsOrderly(s: State, grace: int, id: Id)
    requires Orderly(s, None) && Inv(s)
    ensures Orderly(Leave(s, grace, id), None)
  {
    if id in s.sessions {
      var h := s.sessions[id].hash;
      CountsAreWatchers(s, h);
      assert id in Watchers(s.sessions, h);
      var t := s.(sessions := s.sessions - {id});
      SameTimersOrderly(s, t);
      ReleaseIsOrderly(t, grace, h);
    }
  }

  lemma SameTimersOrderly(s: State, t: State)
    requires Orderly(s, None) && t.timers == s.timers && t.pending == s.pending
    ensures Orderly(t, None)
  {
    forall i: nat | i < |t.timers| ensures ArmedOk(t, None, i) { assert ArmedOk(s, None, i); }
    forall g | g in t.pending ensures Newest(t, g, t.pending[g]) {
      forall j: nat | TimerOf(t, j, g) ensures j <= t.pending[g] { assert TimerOf(s, j, g); }
    }
  }

  lemma JoinIsOrderly(s: State, id: Id, h: Id)
    requires Orderly(s, None) && Tracked(s)
    ensures Orderly(Join(s, id, h), None)
  {
    var t := Join(s, id, h);
    forall i: nat | i < |t.timers| ensures ArmedOk(t, None, i) { assert ArmedOk(s, None, i); }
    forall g | g in t.pending ensures Newest(t, g, t.pending[g]) {
      forall j: nat | TimerOf(t, j, g) ensures j <= t.pending[g] { assert TimerOf(s, j, g); }
    }
  }

  lemma {:induction false} LeaveAllIsOrderly(s: State, grace: int, ids: seq<Id>)
    requires Orderly(s, None) && Inv(s)
    ensures Orderly(LeaveAll(s, grace, ids), None)
  {
    if ids != [] {
      LeaveAllIsOrderly(s, grace, ids[..|ids| - 1]);
      LeaveAllKeeps(s, grace, ids[..|ids| - 1]);
      LeaveIsOrderly(LeaveAll(s, grace, ids[..|ids| - 1]), grace, ids[|ids| - 1]);
    }
  }

  lemma BeatIsOrderly(s: State, grace: int, id: Id, h: Id)
    requires Orderly(s, None) && Inv(s)
    ensures Orderly(Beat(s, grace, id, h), None)
  {
    if id.text == "" || h.text == "" {
    } else if id !in s.sessions {
      JoinIsOrderly(s, id, h);
    } else if s.sessions[id].hash == h {
      SameTimersOrderly(s, Beat(s, grace, id, h));
    } else {
      LeaveIsOrderly(s, grace, id);
      LeaveKeeps(s, grace, id);
      SwitchIsLeaveAndJoin(s, grace, id, h);
      JoinIsOrderly(Leave(s, grace, id), id, h);
    }
  }

  lemma FireIsOrderly(s: State, grace: int, i: nat)
    requires Orderly(s, None)
    ensures Orderly(Fire(s, grace, i), Some(i))
  {
    var t := Fire(s, grace, i);
    forall j: nat | j < |t.timers| ensures ArmedOk(t, Some(i), j) { assert ArmedOk(s, None, j); }
    forall g | g in t.pending ensures Newest(t, g, t.pending[g]) {
      forall j: nat | TimerOf(t, j, g) ensures j <= t.pending[g] { assert TimerOf(s, j, g); }
    }
  }

  lemma CallbackIsOrderly(s: State, but: Option<nat>, i: nat)
    requires Orderly(s, but) && (but == Some(i) || but == None)
    ensures Orderly(Callback(s, i), None)
  {
    var t := Callback(s, i);
    forall j: nat | j < |t.timers| ensures ArmedOk(t, None, j) {
      assert ArmedOk(s, but, j);
      if i < |s.timers| { assert ArmedOk(s, but, i); }
    }
    forall g | g in t.pending ensures Newest(t, g, t.pending[g]) {
      forall j: nat | TimerOf(t, j, g) ensures j <= t.pending[g] { assert TimerOf(s, j, g); }
    }
  }

  /** The timer that has just fired, if that was the last thing to happen. */
  function JustFired(ops: seq<Op>): Option<nat> {
    if ops != [] && ops[|ops| - 1].DoFire? then Some(ops[|ops| - 1].i) else None
  }

  lemma {:induction false} PromptIsOrderly(grace: int, ops: seq<Op>)
    requires Prompt(ops)
    ensures Orderly(Run(grace, ops), JustFired(ops))
  {
    if ops != [] {
      var n := |ops| - 1;
      var s, op := Run(grace, ops[..n]), ops[n];
      PromptIsOrderly(grace, ops[..n]);
      RunKeeps(grace, ops[..n]);
      if n > 0 && ops[n - 1].DoFire? { assert op == DoCallback(ops[n - 1].i); }
      match op
      case DoBeat(id, h) => BeatIsOrderly(s, grace, id, h);
      case DoLeave(id) => LeaveIsOrderly(s, grace, id);
      case DoSweep(ids) => LeaveAllIsOrderly(s, grace, ids);
      case DoFire(i) => FireIsOrderly(s, grace, i);
      case DoCallback(i) => CallbackIsOrderly(s, JustFired(ops[..n]), i);
      case DoCall(k) => SameTimersOrderly(s, Call(s, k));
      case DoTick(now) => SameTimersOrderly(s, Tick(s, now));
    }
  }

  /** As long as no callback is late, every drop comes at least the grace period after the last viewer
      has left, however often viewers have come and gone before. */
  lemma PromptKeepsGrace(grace: int, ops: seq<Op>, i: nat, h: Id)
    requires grace > 0 && Prompt(ops) && TimerOf(Run(grace, ops), i, h)
    requires Run(grace, ops).timers[i].status == FiredT && Unwatched(Run(grace, ops), h)
    ensures var s := Run(grace, ops);
            Callback(s, i).drops == s.drops + [Drop(h, s.clock)] && h in s.left && s.clock >= s.left[h] + grace
  {
    var s := Run(grace, ops);
    PromptIsOrderly(grace, ops);
    assert ArmedOk(s, JustFired(ops), i);
    GraceIsKeptIff(grace, ops, i, h, i);
  }

  // ---------------------------------------------------------------- the manager's call

  lemma JoinsWatch(s: State, grace: int, op: Op, h: Id)
    requires Inv(s) && Joins(op, h)
    ensures !Unwatched(Step(s, grace, op), h)
  {
    if op.id in s.sessions && s.sessions[op.id].hash != h { SwitchIsLeaveAndJoin(s, grace, op.id, h); }
    assert op.id in Watchers(Step(s, grace, op).sessions, h);
  }

  lemma StaysUnwatched(s: State, grace: int, op: Op, h: Id)
    requires Inv(s) && Unwatched(s, h) && !Joins(op, h)
    ensures Unwatched(Step(s, grace, op), h)
  {
    if !OfTimers(op) { StepIsQuiet(s, grace, op, h); }
  }

  /** Nobody watches `h` at any point from `a` to `c`. */
  ghost predicate UnwatchedFrom(grace: int, ops: seq<Op>, a: nat, c: nat, h: Id) {
    c <= |ops| && forall x :: a <= x <= c ==> Unwatched(Run(grace, ops[..x]), h)
  }

  predicate NobodyJoins(ops: seq<Op>, a: nat, c: nat, h: Id) {
    c <= |ops| && forall x :: a <= x < c ==> !Joins(ops[x], h)
  }

  lemma UnwatchedStep(grace: int, ops: seq<Op>, x: nat, h: Id)
    requires x < |ops| && Unwatched(Run(grace, ops[..x]), h)
    ensures Unwatched(Run(grace, ops[..x + 1]), h) <==> !Joins(ops[x], h)
  {
    var u := Run(grace, ops[..x]);
    RunKeeps(grace, ops[..x]);
    TakeMore(ops, x);
    RunOneMore(grace, ops[..x], ops[x]);
    if Joins(ops[x], h) { JoinsWatch(u, grace, ops[x], h); } else { StaysUnwatched(u, grace, ops[x], h); }
  }

  lemma {:induction false} UnwatchedIff(grace: int, ops: seq<Op>, a: nat, c: nat, h: Id)
    requires a <= c <= |ops| && Unwatched(Run(grace, ops[..a]), h)
    ensures UnwatchedFrom(grace, ops, a, c, h) <==> NobodyJoins(ops, a, c, h)
  {
    if a < c {
      UnwatchedIff(grace, ops, a, c - 1, h);
      if UnwatchedFrom(grace, ops, a, c - 1, h) { UnwatchedStep(grace, ops, c - 1, h); }
    }
  }

  /** From the moment operation `a` decides the `k`th drop until the manager is called for it by
      operation `c`, nobody watches the torrent if and only if no heartbeat for it comes between. */
  lemma CallFindsUnwatchedIff(grace: int, ops: seq<Op>, a: nat, c: nat, k: nat)
    requires a < c < |ops| && ops[c] == DoCall(k)
    requires |Run(grace, ops[..a]).drops| <= k < |Run(grace, ops[..a + 1]).drops|
    ensures var h := Run(grace, ops[..a + 1]).drops[k].hash;
            UnwatchedFrom(grace, ops, a + 1, c, h) <==> NobodyJoins(ops, a + 1, c, h)
  {
    var s := Run(grace, ops[..a]);
    RunKeeps(grace, ops[..a]);
    TakeMore(ops, a);
    SplitLast(ops[..a], ops[a]);
    assert Run(grace, ops[..a + 1]) == Step(s, grace, ops[a]);
    DropsOnlyUnwatched(s, grace, ops[a]);
    UnwatchedIff(grace, ops, a + 1, c, Run(grace, ops[..a + 1]).drops[k].hash);
  }

  /** So the check does not cover the call that follows it: a heartbeat between the two leaves a
      watched torrent that the manager is asked to drop. */
  lemma DropCanOvertakeBeat(id: Id, h: Id)
    requires id.text != "" && h.text != ""
    ensures var left := Tick(Leave(Beat(INITIAL, 1, id, h), 1, id), 1);
            var s := Call(Beat(Callback(Fire(left, 1, 0), 0), 1, id, h), 0);
            s.drops == [Drop(h, 1)] && s.called == {0} && id in Watchers(s.sessions, h)
  {
    var left := Tick(Leave(Beat(INITIAL, 1, id, h), 1, id), 1);
    assert left.timers == [Timer(h, ArmedT, 0)] && h !in left.counts && id !in left.sessions;
  }

  /** Which sessions a sweep ends does not depend on the order in which the map yields them. */
  lemma {:induction false} SweepSessions(s: State, grace: int, ids: seq<Id>)
    ensures LeaveAll(s, grace, ids).sessions == s.sessions - (set id | id in ids)
    ensures LeaveAll(s, grace, ids).clock == s.clock
  {
    if ids == [] {
      assert s.sessions - (set id | id in ids) == s.sessions;
    } else {
      var n := |ids| - 1;
      SweepSessions(s, grace, ids[..n]);
      LeaveSessions(LeaveAll(s, grace, ids[..n]), grace, ids[n]);
      JoinLast(ids);
      WithoutOneMore(s.sessions, ids[..n], ids[n]);
    }
  }

  lemma LeaveSessions(s: State, grace: int, id: Id)
    ensures Leave(s, grace, id).sessions == s.sessions - {id} && Leave(s, grace, id).clock == s.clock
  {
    if id in s.sessions { ReleaseIgnoresSessions(s, grace, s.sessions[id].hash, s.sessions - {id}); }
  }

  lemma WithoutOneMore(sessions: map<Id, Session>, ids: seq<Id>, id: Id)
    ensures sessions - (set i | i in ids + [id]) == sessions - (set i | i in ids) - {id}
  {
    assert (set i | i in ids + [id]) == (set i | i in ids) + {id};
  }

  // ---------------------------------------------------------------- who has been heard from

  /** A heartbeat of session `id`. */
  predicate BeatOf(op: Op, id: Id) {
    op.DoBeat? && op.id == id && id.text != "" && op.h.text != ""
  }

  predicate IsLastBeat(ops: seq<Op>, id: Id, k: nat) {
    k < |ops| && BeatOf(ops[k], id) && forall x :: k < x < |ops| ==> !BeatOf(ops[x], id)
  }

  lemma BeatIsHeard(s: State, grace: int, id: Id, h: Id, i: Id)
    ensures var t := Beat(s, grace, id, h);
            if i == id && id.text != "" && h.text != "" then i in t.sessions && t.sessions[i] == Session(h, s.clock)
            else (i in t.sessions <==> i in s.sessions) && (i in t.sessions ==> t.sessions[i] == s.sessions[i])
  {}

  lemma StepSessions(s: State, grace: int, op: Op, id: Id)
    ensures var t := Step(s, grace, op);
            && s.clock <= t.clock
            && (BeatOf(op, id) ==> id in t.sessions && t.sessions[id] == Session(op.h, s.clock))
            && (!BeatOf(op, id) && id in t.sessions ==> id in s.sessions && t.sessions[id] == s.sessions[id])
  {
    match op
    case DoBeat(i, h) => BeatIsHeard(s, grace, i, h, id);
    case DoLeave(i) =>
    case DoSweep(ids) => SweepSessions(s, grace, ids);
    case _ =>
  }

  /** A session watches what its last heartbeat said, and was last seen when that came. */
  lemma {:induction false} LastBeatIsKept(grace: int, ops: seq<Op>, id: Id) returns (k: nat)
    requires id in Run(grace, ops).sessions
    ensures IsLastBeat(ops, id, k)
    ensures Run(grace, ops).sessions[id] == Session(ops[k].h, Run(grace, ops[..k]).clock)
  {
    var n := |ops| - 1;
    StepSessions(Run(grace, ops[..n]), grace, ops[n], id);
    if BeatOf(ops[n], id) {
      k := n;
    } else {
      k := LastBeatIsKept(grace, ops[..n], id);
      assert ops[..n][..k] == ops[..k];
      forall x | k < x < |ops| ensures !BeatOf(ops[x], id) { if x < n { assert ops[..n][x] == ops[x]; } }
    }
  }

  lemma {:induction false} ClockGoesOn(grace: int, ops: seq<Op>, k: nat)
    requires k <= |ops|
    ensures Run(grace, ops[..k]).clock <= Run(grace, ops).clock
  {
    if k == |ops| {
      assert ops[..k] == ops;
    } else {
      var n := |ops| - 1;
      ClockGoesOn(grace, ops[..n], k);
      assert ops[..n][..k] == ops[..k];
      StepSessions(Run(grace, ops[..n]), grace, ops[n], Id(""));
    }
  }

  /** Session `id` has had a heartbeat at `since` or later. */
  ghost predicate HeardSince(grace: int, ops: seq<Op>, id: Id, since: int) {
    exists k: nat :: HeardAt(grace, ops, id, since, k)
  }

  predicate HeardAt(grace: int, ops: seq<Op>, id: Id, since: int, k: nat) {
    k < |ops| && BeatOf(ops[k], id) && Run(grace, ops[..k]).clock >= since
  }

  lemma HeardIff(grace: int, ops: seq<Op>, id: Id, since: int)
    requires id in Run(grace, ops).sessions
    ensures HeardSince(grace, ops, id, since) <==> Run(grace, ops).sessions[id].lastSeen >= since
  {
    var last := LastBeatIsKept(grace, ops, id);
    if k: nat :| HeardAt(grace, ops, id, since, k) {
      assert k <= last;
      ClockGoesOn(grace, ops[..last], k);
      assert ops[..last][..k] == ops[..k];
    }
    if Run(grace, ops).sessions[id].lastSeen >= since { assert HeardAt(grace, ops, id, since, last); }
  }

  lemma RunOneMore(grace: int, ops: seq<Op>, op: Op)
    ensures Run(grace, ops + [op]) == Step(Run(grace, ops), grace, op)
  {
    SplitLast(ops, op);
  }

  // ---------------------------------------------------------------- the tracker itself

  class Tracker {
    const grace: int
    const ttl: int
    var sessions: map<Id, Session>
    var counts: map<Id, nat>
    var pending: map<Id, nat>
    var timers: seq<Timer>  // the runtime's timers
    var drops: seq<Drop>
    var called: set<nat>  // the drops the manager has been called for
    var clock: int
    ghost var left: map<Id, int>
    ghost var ops: seq<Op>  // all that has been done

    ghost function Value(): State
      reads this
    {
      State(sessions, counts, pending, timers, drops, called, clock, left)
    }

    ghost predicate Valid()
      reads this
    {
      Inv(Value()) && Value() == Run(grace, ops)
    }

    constructor (ttl: int, grace: int)
      ensures Valid() && Value() == INITIAL && ops == [] && this.ttl == ttl && this.grace == grace
    {
      this.ttl, this.grace := ttl, grace;
      sessions, counts, pending := map[], map[], map[];
      timers, drops, called, clock, left, ops := [], [], {}, 0, map[], [];
      new;
      RunKeeps(grace, []);
    }

    /** Adds what has just been done to the history. */
    ghost method Note(op: Op)
      requires Inv(Run(grace, ops)) && Value() == Step(Run(grace, ops), grace, op)
      modifies this`ops
      ensures Valid() && ops == old(ops) + [op]
    {
      StepKeeps(Run(grace, ops), grace, op);
      RunOneMore(grace, ops, op);
      ops := ops + [op];
    }

    method ReleaseViewer(h: Id)
      modifies this
      ensures ops == old(ops) && Value() == Release(old(Value()), grace, h)
    {
      if h !in counts || counts[h] <= 1 {
        counts, left := counts - {h}, left[h := clock];
        Schedule(h);
      } else {
        counts := counts[h := counts[h] - 1];
      }
    }

    method StopTimer(i: nat)
      modifies this`timers
      ensures timers == Stop(old(timers), i)
    {
      if i < |timers| && timers[i].status == ArmedT {
        timers := timers[i := timers[i].(status := StoppedT)];
      }
    }

    method Schedule(h: Id)
      modifies this
      ensures ops == old(ops) && Value() == ScheduleDrop(old(Value()), grace, h)
    {
      if grace <= 0 {
        drops := drops + [Drop(h, clock)];
        return;
      }
      if h in pending {
        StopTimer(pending[h]);
      }
      pending := pending[h := |timers|];
      timers := timers + [Timer(h, ArmedT, clock)];
    }

    method Cancel(h: Id)
      modifies this
      ensures ops == old(ops) && Value() == CancelPending(old(Value()), h)
    {
      if h in pending {
        StopTimer(pending[h]);
        pending := pending - {h};
      }
    }

    /** A heartbeat from session `id` for torrent `h`. */
    method OnBeat(id: Id, h: Id)
      requires Valid()
      modifies this
      ensures Valid() && ops == old(ops) + [DoBeat(id, h)] && Value() == Beat(old(Value()), grace, id, h)
      ensures sessions == if id.text == "" || h.text == "" then old(sessions)
                          else old(sessions)[id := Session(h, clock)]
      ensures clock == old(clock)
    {
      Beats(id, h);
      Note(DoBeat(id, h));
    }

    method Beats(id: Id, h: Id)
      modifies this
      ensures ops == old(ops) && Value() == Beat(old(Value()), grace, id, h) && clock == old(clock)
      ensures sessions == if id.text == "" || h.text == "" then old(sessions)
                          else old(sessions)[id := Session(h, clock)]
    {
      if id.text == "" || h.text == "" {
        return;
      }
      if id in sessions {
        if sessions[id].hash == h {
          sessions := sessions[id := sessions[id].(lastSeen := clock)];
          return;
        }
        ReleaseViewer(sessions[id].hash);
      }
      sessions := sessions[id := Session(h, clock)];
      counts := counts[h := (if h in counts then counts[h] else 0) + 1];
      Cancel(h);
    }

    /** The page-hide beacon of session `id`. */
    method OnLeave(id: Id)
      requires Valid()
      modifies this
      ensures Valid() && ops == old(ops) + [DoLeave(id)] && Value() == Step(old(Value()), grace, DoLeave(id))
      ensures sessions == if id.text == "" then old(sessions) else old(sessions) - {id}
    {
      if id.text != "" && id in sessions {
        EndSession(id);
      }
      Note(DoLeave(id));
    }

    method EndSession(id: Id)
      requires id in sessions
      modifies this
      ensures ops == old(ops) && Value() == Leave(old(Value()), grace, id) && sessions == old(sessions) - {id}
    {
      var h := sessions[id].hash;
      sessions := sessions - {id};
      ReleaseViewer(h);
    }

    /** Ends the sessions not heard from within the TTL, in whatever order the map yields them: no
        session that has had a heartbeat since, and every other one. */
    method Sweep(now: int) returns (ghost order: seq<Id>)
      requires Valid()
      modifies this
      ensures Valid() && IsOrderOf(order, Expired(old(Value()), now - ttl))
      ensures ops == old(ops) + [DoSweep(order)] && Value() == LeaveAll(old(Value()), grace, order)
      ensures forall id :: id in sessions <==> id in old(sessions) && HeardSince(grace, old(ops), id, now - ttl)
      ensures forall id :: id in sessions ==> sessions[id] == old(sessions)[id]
    {
      ghost var s := Value();
      var cutoff := now - ttl;
      var rest := sessions.Keys;
      order := [];
      ghost var ended := {};
      while rest != {}
        invariant rest <= sessions.Keys && sessions == s.sessions - ended && ops == old(ops)
        invariant Value() == LeaveAll(s, grace, order)
        invariant IsOrderOf(order, ended) && ended == Expired(s, cutoff) - rest
      {
        var id :| id in rest;
        rest := rest - {id};
        if sessions[id].lastSeen < cutoff {
          OrderOneMore(order, ended, id);
          order, ended := order + [id], ended + {id};
          EndSession(id);
        }
      }
      forall id | id in s.sessions ensures id in sessions <==> HeardSince(grace, ops, id, cutoff) {
        HeardIff(grace, ops, id, cutoff);
      }
      Note(DoSweep(order));
    }

    lemma OrderOneMore(order: seq<Id>, all: set<Id>, id: Id)
      requires IsOrderOf(order, all) && id !in all
      ensures IsOrderOf(order + [id], all + {id}) && (order + [id])[..|order|] == order
    {
      forall x ensures x in order + [id] <==> x in all + {id} { assert x in order <==> x in all; }
    }

    /** Time passes. */
    method TickTo(now: int)
      requires Valid()
      modifies this`clock, this`ops
      ensures Valid() && ops == old(ops) + [DoTick(now)] && Value() == Tick(old(Value()), now)
      ensures clock == if now > old(clock) then now else old(clock)
    {
      if now > clock {
        clock := now;
      }
      Note(DoTick(now));
    }

    /** The runtime fires a timer whose time has come. */
    method TimerFires(i: nat)
      requires Valid()
      modifies this`timers, this`ops
      ensures Valid() && ops == old(ops) + [DoFire(i)] && Value() == Fire(old(Value()), grace, i)
    {
      if i < |timers| && timers[i].status == ArmedT && clock >= timers[i].armedAt + grace {
        timers := timers[i := timers[i].(status := FiredT)];
      }
      Note(DoFire(i));
    }

    /** The body of a timer's callback. */
    method TimerCallback(i: nat) returns (reappeared: bool)
      requires Valid() && i < |timers| && timers[i].status == FiredT
      modifies this
      ensures Valid() && ops == old(ops) + [DoCallback(i)] && Value() == Callback(old(Value()), i)
      ensures drops == if reappeared then old(drops) else old(drops) + [Drop(old(timers)[i].hash, clock)]
      ensures reappeared <==> Watchers(old(sessions), old(timers)[i].hash) != {}
    {
      var h := timers[i].hash;
      assert Counted(Value(), h);
      timers := timers[i := timers[i].(status := DoneT)];
      pending := pending - {h};
      reappeared := h in counts && counts[h] > 0;
      if !reappeared {
        drops := drops + [Drop(h, clock)];
      }
      Note(DoCallback(i));
    }

    /** Calls the manager for a decided drop. */
    method DropNow(k: nat)
      requires Valid() && k < |drops|
      modifies this`called, this`ops
      ensures Valid() && ops == old(ops) + [DoCall(k)] && Value() == Call(old(Value()), k)
    {
      called := called + {k};
      Note(DoCall(k));
    }
  }
}
