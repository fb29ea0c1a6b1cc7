/** The sliding-window limiter of viewer/ratelimit.go, which keeps only the stamps it still
    needs, against the full history of what it has accepted.

    A call reads the clock before it takes the lock, so calls need not get the lock in the order of
    their times. */
module RateLimit {
  import opened Seqs
  import opened Decimal

  datatype Key = Key(text: string)

  /** What gets the lock: a call for one key, or a caller's sweep of every key. */
  datatype Op = Call(key: Key, at: int) | Sweep(cutoff: int)

  /** In the order they got the lock, whatever their times. */
  datatype History = Start | Then(before: History, op: Op)

  const MAX_KEYS := 4096

  // ---------------------------------------------------------------- specification

  /** The stamps after `cutoff`. */
  function Recent(stamps: seq<int>, cutoff: int): seq<int> {
    if stamps == [] then []
    else
      var n := |stamps| - 1;
      Recent(stamps[..n], cutoff) + if stamps[n] > cutoff then [stamps[n]] else []
  }

  /** With every accepted event of a key remembered: at most `limit` of them in any window. */
  predicate Allowed(log: seq<int>, limit: int, window: int, at: int) {
    |Recent(log, at - window)| < limit
  }

  function Record(log: seq<int>, limit: int, window: int, at: int): seq<int> {
    if Allowed(log, limit, window, at) then log + [at] else log
  }

  /** What of one key the full history would accept. */
  function Accepted(limit: int, window: int, h: History, key: Key): seq<int> {
    match h
    case Start => []
    case Then(before, op) =>
      var log := Accepted(limit, window, before, key);
      if op.Call? && op.key == key then Record(log, limit, window, op.at) else log
  }

  /** The stamps in the window that ends at `t`. */
  function InWindow(stamps: seq<int>, window: int, t: int): seq<int> {
    if stamps == [] then []
    else
      var n := |stamps| - 1;
      InWindow(stamps[..n], window, t) + if t - window < stamps[n] <= t then [stamps[n]] else []
  }

  // ---------------------------------------------------------------- no window overflows

  lemma {:induction false} WindowsAreRecent(stamps: seq<int>, window: int, t: int, cutoff: int)
    requires cutoff <= t - window
    ensures |InWindow(stamps, window, t)| <= |Recent(stamps, cutoff)|
  {
    if stamps != [] { WindowsAreRecent(stamps[..|stamps| - 1], window, t, cutoff); }
  }

  lemma InWindowAppend(stamps: seq<int>, at: int, window: int, t: int)
    ensures InWindow(stamps + [at], window, t)
         == InWindow(stamps, window, t) + if t - window < at <= t then [at] else []
  {
    SplitLast(stamps, at);
  }

  /** However the calls are spread over time, the full history leaves no window of the given length,
      wherever it ends, with more than `limit` accepted events of one key. */
  lemma {:induction false} NoWindowOverflows(limit: int, window: int, h: History, key: Key, t: int)
    requires limit >= 0
    ensures |InWindow(Accepted(limit, window, h, key), window, t)| <= limit
  {
    if h.Then? {
      NoWindowOverflows(limit, window, h.before, key, t);
      if h.op.Call? { RecordKeepsWindow(Accepted(limit, window, h.before, key), limit, window, h.op.at, t); }
    }
  }

  lemma RecordKeepsWindow(log: seq<int>, limit: int, window: int, at: int, t: int)
    requires |InWindow(log, window, t)| <= limit
    ensures |InWindow(Record(log, limit, window, at), window, t)| <= limit
  {
    InWindowAppend(log, at, window, t);
    if at <= t { WindowsAreRecent(log, window, t, at - window); }
  }

  // ---------------------------------------------------------------- what the limiter keeps

  /** The stamps up to `cutoff`. */
  function Old(stamps: seq<int>, cutoff: int): seq<int> {
    if stamps == [] then []
    else
      var n := |stamps| - 1;
      Old(stamps[..n], cutoff) + if stamps[n] > cutoff then [] else [stamps[n]]
  }

  /** Of one key: the stamps kept, every stamp accepted, those of them pruned away, and the highest
      cutoff that has pruned any away. */
  datatype Slot = Slot(hits: seq<int>, log: seq<int>, gone: seq<int>, pruned: Option<int>)

  const EMPTY := Slot([], [], [], None)

  function Highest(pruned: Option<int>, cutoff: int): Option<int> {
    if pruned.Some? && pruned.value > cutoff then pruned else Some(cutoff)
  }

  function Pruned(s: Slot, cutoff: int): Slot {
    var out := Old(s.hits, cutoff);
    Slot(Recent(s.hits, cutoff), s.log, s.gone + out, if out == [] then s.pruned else Highest(s.pruned, cutoff))
  }

  function Accept(s: Slot, at: int): Slot {
    s.(hits := s.hits + [at], log := s.log + [at])
  }

  /** The limiter decides by the stamps it has kept. */
  predicate Accepts(s: Slot, limit: int, window: int, at: int) {
    |Recent(s.hits, at - window)| < limit
  }

  function Called(s: Slot, limit: int, window: int, at: int): Slot {
    var pruned := Pruned(s, at - window);
    if Accepts(s, limit, window, at) then Accept(pruned, at) else pruned
  }

  function Next(s: Slot, limit: int, window: int, op: Op, key: Key): Slot {
    match op
    case Sweep(cutoff) => Pruned(s, cutoff)
    case Call(k, at) => if k == key then Called(s, limit, window, at) else s
  }

  function After(limit: int, window: int, h: History, key: Key): Slot {
    match h
    case Start => EMPTY
    case Then(before, op) => Next(After(limit, window, before, key), limit, window, op, key)
  }

  // ---------------------------------------------------------------- pruning

  lemma RecentAppend(stamps: seq<int>, at: int, cutoff: int)
    ensures Recent(stamps + [at], cutoff) == Recent(stamps, cutoff) + if at > cutoff then [at] else []
  {
    SplitLast(stamps, at);
  }

  lemma {:induction false} RecentTwice(stamps: seq<int>, early: int, late: int)
    requires early <= late
    ensures Recent(Recent(stamps, early), late) == Recent(stamps, late)
  {
    if stamps != [] {
      var n := |stamps| - 1;
      RecentTwice(stamps[..n], early, late);
      if stamps[n] > early { RecentAppend(Recent(stamps[..n], early), stamps[n], late); }
      else { NoneBefore(Recent(stamps[..n], early)); }
    }
  }

  /** Just the stamps after the cutoff are kept, in their order and each as often as it occurs. */
  lemma {:induction false} RecentJoin(a: seq<int>, b: seq<int>, c: int)
    ensures Recent(a + b, c) == Recent(a, c) + Recent(b, c)
    ensures |b| == 1 ==> Recent(b, c) == if b[0] > c then b else []
  {
    if b == [] {
      NoneBefore(a);
      NoneBefore(Recent(a, c));
    } else {
      var n := |b| - 1;
      JoinLast(b);
      Assoc(a, b[..n], [b[n]]);
      RecentAppend(a + b[..n], b[n], c);
      RecentJoin(a, b[..n], c);
      Assoc(Recent(a, c), Recent(b[..n], c), if b[n] > c then [b[n]] else []);
      if n == 0 { NoneBefore(b); }
    }
  }

  /** What is pruned and what is kept are together what there was. */
  lemma {:induction false} PruneCounts(stamps: seq<int>, cutoff: int, c: int)
    ensures |Recent(stamps, c)| == |Recent(Recent(stamps, cutoff), c)| + |Recent(Old(stamps, cutoff), c)|
  {
    if stamps != [] {
      var n := |stamps| - 1;
      PruneCounts(stamps[..n], cutoff, c);
      RecentAppend(Recent(stamps[..n], cutoff), stamps[n], c);
      RecentAppend(Old(stamps[..n], cutoff), stamps[n], c);
      NoneBefore(Recent(stamps[..n], cutoff));
      NoneBefore(Old(stamps[..n], cutoff));
    }
  }

  lemma {:induction false} PruneMembers(stamps: seq<int>, cutoff: int)
    ensures forall x :: x in Recent(stamps, cutoff) ==> x in stamps && x > cutoff
    ensures forall x :: x in Old(stamps, cutoff) ==> x in stamps && x <= cutoff
  {
    if stamps != [] { PruneMembers(stamps[..|stamps| - 1], cutoff); }
  }

  predicate Adds(log: seq<int>, hits: seq<int>, gone: seq<int>, c: int) {
    |Recent(log, c)| == |Recent(hits, c)| + |Recent(gone, c)|
  }

  /** What was accepted is what is kept and what was pruned away, the latter at `pruned` or before. */
  ghost predicate SplitOk(log: seq<int>, hits: seq<int>, gone: seq<int>, pruned: Option<int>) {
    && (forall c :: Adds(log, hits, gone, c))
    && (forall x :: x in hits ==> x in log)
    && (forall x :: x in gone ==> x in log && pruned.Some? && x <= pruned.value)
  }

  ghost predicate Inv(s: Slot) {
    SplitOk(s.log, s.hits, s.gone, s.pruned)
  }

  lemma PruneSplits(log: seq<int>, hits: seq<int>, gone: seq<int>, pruned: Option<int>, cutoff: int, after: int)
    requires SplitOk(log, hits, gone, pruned) && after >= cutoff && (pruned.Some? ==> after >= pruned.value)
    ensures SplitOk(log, Recent(hits, cutoff), gone + Old(hits, cutoff), Some(after))
  {
    PruneMembers(hits, cutoff);
    forall c ensures Adds(log, Recent(hits, cutoff), gone + Old(hits, cutoff), c) {
      assert Adds(log, hits, gone, c);
      PruneCounts(hits, cutoff, c);
      RecentJoin(gone, Old(hits, cutoff), c);
    }
  }

  lemma AcceptSplits(log: seq<int>, hits: seq<int>, gone: seq<int>, pruned: Option<int>, at: int)
    requires SplitOk(log, hits, gone, pruned)
    ensures SplitOk(log + [at], hits + [at], gone, pruned)
  {
    forall c ensures Adds(log + [at], hits + [at], gone, c) {
      assert Adds(log, hits, gone, c);
      RecentAppend(log, at, c);
      RecentAppend(hits, at, c);
    }
  }

  lemma PrunedKeeps(s: Slot, cutoff: int)
    requires Inv(s)
    ensures Inv(Pruned(s, cutoff))
  {
    var after := Highest(s.pruned, cutoff);
    PruneSplits(s.log, s.hits, s.gone, s.pruned, cutoff, after.value);
    if Old(s.hits, cutoff) == [] { NoneBefore(s.gone); }
  }

  /** Every call keeps apart just what it has forgotten, in whatever order calls come. */
  lemma NextKeeps(s: Slot, limit: int, window: int, op: Op, key: Key)
    requires Inv(s)
    ensures Inv(Next(s, limit, window, op, key))
  {
    match op
    case Sweep(cutoff) => PrunedKeeps(s, cutoff);
    case Call(k, at) =>
      PrunedKeeps(s, at - window);
      AcceptKeeps(Pruned(s, at - window), at);
  }

  lemma AcceptKeeps(s: Slot, at: int)
    requires Inv(s)
    ensures Inv(Accept(s, at))
  {
    AcceptSplits(s.log, s.hits, s.gone, s.pruned, at);
  }

  lemma {:induction false} RunKeeps(limit: int, window: int, h: History, key: Key)
    ensures Inv(After(limit, window, h, key))
  {
    match h
    case Start => forall c ensures Adds([], [], [], c) {}
    case Then(before, op) =>
      RunKeeps(limit, window, before, key);
      NextKeeps(After(limit, window, before, key), limit, window, op, key);
  }

  // ---------------------------------------------------------------- when nothing is missed

  /** The limiter decides as the full history would, if and only if the stamps it has forgotten do not
      make the difference between room and no room; and it never refuses what that would accept. */
  lemma {:induction false} DecidesFullyIff(s: Slot, limit: int, window: int, at: int)
    requires Inv(s)
    ensures var kept := |Recent(s.hits, at - window)|;
            var forgotten := |Recent(s.gone, at - window)|;
            (Accepts(s, limit, window, at) <==> Allowed(s.log, limit, window, at)) <==>
              !(kept < limit <= kept + forgotten)
    ensures Allowed(s.log, limit, window, at) ==> Accepts(s, limit, window, at)
  {
    assert Adds(s.log, s.hits, s.gone, at - window);
  }

  /** No accepted stamp of the key is in the window and yet not above the highest cutoff that has
      pruned any of the key's away. */
  predicate Clear(s: Slot, window: int, at: int) {
    s.pruned.Some? ==> forall x :: x in s.log ==> x <= at - window || s.pruned.value < x
  }

  lemma {:induction false} NoneForgotten(log: seq<int>, gone: seq<int>, pruned: Option<int>, cutoff: int)
    requires forall x :: x in gone ==> x in log && pruned.Some? && x <= pruned.value
    requires pruned.Some? ==> forall x :: x in log ==> x <= cutoff || pruned.value < x
    ensures Recent(gone, cutoff) == []
  {
    if gone != [] {
      var last := gone[|gone| - 1];
      assert last in gone;
      forall x | x in gone[..|gone| - 1] ensures x in gone {}
      NoneForgotten(log, gone[..|gone| - 1], pruned, cutoff);
    }
  }

  /** Then nothing that matters has been forgotten, and the decision is that of the full history. */
  lemma {:induction false} ClearDecidesFully(s: Slot, limit: int, window: int, at: int)
    requires Inv(s) && Clear(s, window, at)
    ensures Recent(s.gone, at - window) == []
    ensures Accepts(s, limit, window, at) <==> Allowed(s.log, limit, window, at)
    ensures Called(s, limit, window, at).log == Record(s.log, limit, window, at)
  {
    NoneForgotten(s.log, s.gone, s.pruned, at - window);
    DecidesFullyIff(s, limit, window, at);
  }

  predicate DecidesWell(s: Slot, limit: int, window: int, at: int) {
    && (Accepts(Pruned(s, at - window), limit, window, at) <==> Accepts(s, limit, window, at))
    && (Allowed(s.log, limit, window, at) ==> Accepts(s, limit, window, at))
    && (Clear(s, window, at) ==> (Accepts(s, limit, window, at) <==> Allowed(s.log, limit, window, at)))
  }

  lemma {:induction false} Decides(s: Slot, limit: int, window: int, at: int)
    requires Inv(s)
    ensures DecidesWell(s, limit, window, at)
  {
    PrunedDecides(s, limit, window, at);
    DecidesFullyIff(s, limit, window, at);
    if Clear(s, window, at) { ClearDecidesFully(s, limit, window, at); }
  }

  lemma {:induction false} PrunedDecides(s: Slot, limit: int, window: int, at: int)
    ensures Accepts(Pruned(s, at - window), limit, window, at) <==> Accepts(s, limit, window, at)
  {
    RecentTwice(s.hits, at - window, at - window);
  }

  lemma Decided(limit: int, window: int, h: History, key: Key, at: int)
    ensures DecidesWell(After(limit, window, h, key), limit, window, at)
  {
    RunKeeps(limit, window, h, key);
    Decides(After(limit, window, h, key), limit, window, at);
  }

  predicate AllClear(limit: int, window: int, h: History, key: Key) {
    h.Then? ==>
      && AllClear(limit, window, h.before, key)
      && (h.op.Call? && h.op.key == key ==> Clear(After(limit, window, h.before, key), window, h.op.at))
  }

  /** As long as every call for a key finds it so, what is accepted of it is what the full history
      would accept, and no window, wherever it ends, holds more than `limit` of its accepted events. */
  lemma {:induction false} ClearRunKeepsLimit(limit: int, window: int, h: History, key: Key, t: int)
    requires limit >= 0 && AllClear(limit, window, h, key)
    ensures After(limit, window, h, key).log == Accepted(limit, window, h, key)
    ensures |InWindow(After(limit, window, h, key).log, window, t)| <= limit
  {
    NoWindowOverflows(limit, window, h, key, t);
    if h.Then? {
      ClearRunKeepsLimit(limit, window, h.before, key, t);
      RunKeeps(limit, window, h.before, key);
      if h.op.Call? && h.op.key == key {
        ClearDecidesFully(After(limit, window, h.before, key), limit, window, h.op.at);
      }
    }
  }

  /** The time an operation read on the clock, before it had the lock. */
  function TimeOf(op: Op, window: int): int {
    if op.Sweep? then op.cutoff + window else op.at
  }

  /** The lock is got in the order of times, the last at `t` or before. */
  predicate InOrder(h: History, window: int, t: int) {
    h.Then? ==> TimeOf(h.op, window) <= t && InOrder(h.before, window, TimeOf(h.op, window))
  }

  lemma {:induction false} PrunedBefore(limit: int, window: int, h: History, key: Key, t: int)
    requires InOrder(h, window, t)
    ensures var s := After(limit, window, h, key); s.pruned.Some? ==> s.pruned.value <= t - window
  {
    if h.Then? { PrunedBefore(limit, window, h.before, key, TimeOf(h.op, window)); }
  }

  /** It is so whenever calls get the lock in the order of their times. */
  lemma {:induction false} OrderIsClear(limit: int, window: int, h: History, key: Key, t: int)
    requires InOrder(h, window, t)
    ensures AllClear(limit, window, h, key)
  {
    if h.Then? {
      OrderIsClear(limit, window, h.before, key, TimeOf(h.op, window));
      PrunedBefore(limit, window, h.before, key, TimeOf(h.op, window));
    }
  }

  /** Three calls at 0, 50 and 10100, with two allowed in ten thousand. */
  function ThreeCalls(k: Key): History {
    Then(Then(Then(Start, Call(k, 0)), Call(k, 50)), Call(k, 10100))
  }

  lemma AfterTwo(k: Key)
    ensures var s := After(2, 10000, ThreeCalls(k).before, k); s.hits == s.log == [0] + [50]
  {
    assert After(2, 10000, Start, k).hits == After(2, 10000, Start, k).log == [];
    NoneBefore([0]);
    RecentAppend([], 0, -9950);
  }

  lemma AfterThree(k: Key)
    ensures var s := After(2, 10000, ThreeCalls(k), k); s.hits == [10100] && s.log == [0] + [50] + [10100]
  {
    AfterTwo(k);
    NoneBefore([0]);
    NoneBefore([10100]);
    RecentAppend([], 0, 100);
    RecentAppend([0], 50, 100);
  }

  lemma AfterFour(k: Key)
    ensures After(2, 10000, Then(ThreeCalls(k), Call(k, 9900)), k).log == [0] + [50] + [10100] + [9900]
  {
    AfterThree(k);
    NoneBefore([10100]);
    RecentAppend([], 10100, -100);
  }

  /** Out of order, a window can hold more: the third call prunes what the fourth, which read the
      clock earlier, should still have counted. */
  lemma DisorderExceedsLimit(k: Key)
    ensures |InWindow(After(2, 10000, Then(ThreeCalls(k), Call(k, 9900)), k).log, 10000, 9900)| == 3
  {
    AfterFour(k);
    NoneBefore([0]);
    InWindowAppend([], 0, 10000, 9900);
    InWindowAppend([0], 50, 10000, 9900);
    InWindowAppend([0] + [50], 10100, 10000, 9900);
    InWindowAppend([0] + [50] + [10100], 9900, 10000, 9900);
  }

  // ---------------------------------------------------------------- the limiter itself

  class RateLimiter {
    const limit: int
    const window: int
    var hits: map<Key, seq<int>>
    ghost var h: History

    ghost predicate Valid()
      reads this
    {
      && limit > 0
      && (forall key :: Keeps(key))
      && (forall key :: key in hits ==> hits[key] != [])
    }

    ghost predicate Keeps(key: Key)
      reads this
    {
      Stamps(hits, key) == SlotOf(key).hits
    }

    ghost function SlotOf(key: Key): Slot
      reads this`h
    {
      After(limit, window, h, key)
    }

    constructor (limit: int, window: int)
      requires limit > 0
      ensures Valid() && h == Start && this.limit == limit && this.window == window
    {
      this.limit, this.window := limit, window;
      hits, h := map[], Start;
    }

    /** The stamps after `cutoff`, copied down in their order. */
    method Prune(stamps: seq<int>, cutoff: int) returns (kept: seq<int>)
      ensures kept == Recent(stamps, cutoff)
    {
      kept := [];
      for i := 0 to |stamps|
        invariant kept == Recent(stamps[..i], cutoff)
      {
        RecentAppend(stamps[..i], stamps[i], cutoff);
        TakeMore(stamps, i);
        if stamps[i] > cutoff {
          kept := kept + [stamps[i]];
        }
      }
      assert stamps[..|stamps|] == stamps;
    }

    /** Records an event and reports whether it stayed within the limit, whenever the caller read the
        clock.  It refuses nothing that the full history would accept, and accepts nothing more if no
        accepted stamp of the key is in the window and not above the highest cutoff that pruned it. */
    method Allow(key: Key, now: int) returns (ok: bool)
      requires Valid()
      modifies this
      ensures Valid()
      ensures var swept := if |old(hits)| > 4096 then Then(old(h), Sweep(now - window)) else old(h);
              h == Then(swept, Call(key, now))
      ensures ok <==> Accepts(old(SlotOf(key)), limit, window, now)
      ensures SlotOf(key).log == old(SlotOf(key)).log + if ok then [now] else []
      ensures |Recent(old(SlotOf(key)).log, now - window)| < limit ==> ok
      ensures Clear(old(SlotOf(key)), window, now) ==>
                (ok <==> |Recent(old(SlotOf(key)).log, now - window)| < limit)
    {
      ghost var was := SlotOf(key);
      Decided(limit, window, h, key, now);
      if |hits| > MAX_KEYS {
        SweepLocked(now - window);
      }
      ok := Decide(key, now);
    }

    /** The decision for one key, once a map grown too large has been swept. */
    method Decide(key: Key, now: int) returns (ok: bool)
      requires Valid()
      modifies this
      ensures Valid() && h == Then(old(h), Call(key, now))
      ensures ok <==> Accepts(old(SlotOf(key)), limit, window, now)
      ensures SlotOf(key).log == old(SlotOf(key)).log + if ok then [now] else []
    {
      assert Keeps(key);
      var kept := Prune(Stamps(hits, key), now - window);
      ok := |kept| < limit;
      hits := hits[key := if ok then kept + [now] else kept];
      h := Then(h, Call(key, now));
      forall k ensures Keeps(k) {
        assert old(Keeps(k));
      }
    }

    /** Forgets the keys whose every stamp is out of the window. */
    method SweepLocked(cutoff: int)
      requires Valid()
      modifies this
      ensures Valid() && h == Then(old(h), Sweep(cutoff))
    {
      ghost var all := hits;
      var rest := hits.Keys;
      while rest != {}
        invariant rest <= hits.Keys <= all.Keys && h == old(h)
        invariant forall key :: key in hits ==>
                    if key in rest then hits[key] == all[key]
                    else hits[key] == Recent(all[key], cutoff) && hits[key] != []
        invariant forall key :: key in all && key !in hits ==> Recent(all[key], cutoff) == []
      {
        var k :| k in rest;
        rest := rest - {k};
        var live := Prune(hits[k], cutoff);
        if |live| == 0 {
          hits := hits - {k};
        } else {
          hits := hits[k := live];
        }
      }
      h := Then(h, Sweep(cutoff));
      forall k ensures Keeps(k) {
        assert old(Keeps(k));
      }
    }
  }

  function Stamps(hits: map<Key, seq<int>>, key: Key): seq<int> {
    if key in hits then hits[key] else []
  }
}
