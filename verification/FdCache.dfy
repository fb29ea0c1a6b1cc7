/** The bounded LRU of reference-counted read handles in streamer/storage_fdcache.go.

    A read is two critical sections around an unlocked pread, so any number of other
    operations may run between its two halves.  The first part of this module says what each
    critical section does to a value (State) and proves what holds after every interleaving.
    The second part is the mutable cache, each of whose methods is one critical section and is
    proved to do just that. */
module FdCache {

  datatype Path = Path(text: string)

  // ---------------------------------------------------------------- specification

  /** One cached handle: the path it was opened on, and the entry's fields.  `closes` counts
      the calls of Close its file has received. */
  datatype Ent = Ent(path: Path, used: nat, refs: nat, dead: bool, closes: nat)

  /** Entries are numbered in order of creation.  `flights` holds, once per read between its
      two critical sections, the number of the entry that read holds; `touched` remembers
      which entry each tick of the clock went to. */
  datatype State = State(clock: nat, m: map<Path, nat>, ents: seq<Ent>, flights: multiset<nat>, touched: map<nat, nat>)

  const INITIAL := State(0, map[], [], multiset{}, map[])

  predicate InMap(s: State, i: int)
    requires 0 <= i < |s.ents|
  {
    s.ents[i].path in s.m && s.m[s.ents[i].path] == i
  }

  /** Entry `i` is as it should be, given whether the map and the reads in flight hold it. */
  predicate EntOk(s: State, i: int)
    requires 0 <= i < |s.ents|
  {
    && s.ents[i].refs == s.flights[i]
    && if InMap(s, i) then
         && !s.ents[i].dead && s.ents[i].closes == 0 && 0 < s.ents[i].used <= s.clock
         && s.ents[i].used in s.touched && s.touched[s.ents[i].used] == i
       else if s.ents[i].refs > 0 then s.ents[i].dead && s.ents[i].closes == 0
       else s.ents[i].closes == 1
  }

  predicate Linked(s: State) {
    forall p :: p in s.m ==> s.m[p] < |s.ents| && s.ents[s.m[p]].path == p
  }

  ghost predicate Inv(s: State) {
    && Linked(s)
    && (forall i :: 0 <= i < |s.ents| ==> EntOk(s, i))
    && (forall i :: i in s.flights ==> i < |s.ents|)
  }

  /** An entry leaving the map: closed now, or by the last read that holds it. */
  function Retired(e: Ent): Ent {
    if e.refs == 0 then e.(closes := e.closes + 1) else e.(dead := true)
  }

  function EntAfter(s: State, ps: set<Path>, i: int): Ent
    requires 0 <= i < |s.ents|
  {
    if InMap(s, i) && s.ents[i].path in ps then Retired(s.ents[i]) else s.ents[i]
  }

  /** The paths `ps`, those of them the map holds, have been retired. */
  ghost predicate Retires(s: State, ps: set<Path>, t: State) {
    && t.m == s.m - ps && t.clock == s.clock && t.flights == s.flights && t.touched == s.touched
    && |t.ents| == |s.ents|
    && (forall i :: 0 <= i < |s.ents| ==> t.ents[i] == EntAfter(s, ps, i))
  }

  function RetireOne(s: State, p: Path): State
    requires Linked(s) && p in s.m
  {
    s.(m := s.m - {p}, ents := s.ents[s.m[p] := Retired(s.ents[s.m[p]])])
  }

  /** A path in the map whose entry no read holds. */
  predicate Idle(s: State, p: Path) {
    p in s.m && s.m[p] < |s.ents| && s.ents[s.m[p]].refs == 0
  }

  function Used(s: State, p: Path): nat
    requires p in s.m && s.m[p] < |s.ents|
  {
    s.ents[s.m[p]].used
  }

  ghost predicate IsLru(s: State, p: Path) {
    Idle(s, p) && forall q :: Idle(s, q) ==> Used(s, p) <= Used(s, q)
  }

  /** Eviction on its way from `s`: only idle entries have left, all last used by tick `h`, every
      idle entry still there was used after it, and none left while the map was within its cap. */
  ghost predicate Evicting(s: State, max: nat, gone: set<Path>, h: nat, t: State) {
    && gone <= s.m.Keys && Retires(s, gone, t)
    && (forall p :: p in gone ==> Idle(s, p) && Used(s, p) <= h)
    && (forall p :: Idle(s, p) && p !in gone ==> Used(s, p) > h)
    && (gone == {} || |t.m| >= max)
  }

  /** Eviction finished: the map is within its cap, or a read holds every entry in it. */
  ghost predicate Evicted(s: State, max: nat, t: State) {
    && (exists gone, h :: Evicting(s, max, gone, h, t))
    && (|t.m| <= max || forall p :: !Idle(t, p))
  }

  function Touch(s: State, i: nat): State
    requires i < |s.ents|
  {
    s.(clock := s.clock + 1,
       ents := s.ents[i := s.ents[i].(used := s.clock + 1, refs := s.ents[i].refs + 1)],
       flights := s.flights + multiset{i},
       touched := s.touched[s.clock + 1 := i])
  }

  function Insert(s: State, path: Path): State {
    s.(m := s.m[path := |s.ents|], ents := s.ents + [Ent(path, 0, 0, false, 0)])
  }

  /** The state after the lookup, the open and the touch of a read's first section. */
  function Pin(s: State, path: Path): State
    requires Linked(s)
  {
    if path in s.m then Touch(s, s.m[path]) else Touch(Insert(s, path), |s.ents|)
  }

  /** The second critical section: unpin, and close a retired entry nobody holds any more. */
  function End(s: State, i: nat): State
    requires i < |s.ents| && s.ents[i].refs > 0
  {
    var e := s.ents[i].(refs := s.ents[i].refs - 1);
    s.(ents := s.ents[i := if e.dead && e.refs == 0 then e.(closes := e.closes + 1) else e],
       flights := s.flights - multiset{i})
  }

  function WithPrefix(paths: set<Path>, prefix: Path): set<Path> {
    set p | p in paths && prefix.text <= p.text
  }

  datatype Op =
    | BeginRead(path: Path, canOpen: bool)
    | EndRead(i: nat)
    | DropPath(path: Path)
    | DropBelow(prefix: Path)
    | DropAll

  /** What one critical section may do.  `canOpen` says whether the blob can be opened, and
      only a read that is in flight can end. */
  ghost predicate Next(s: State, max: nat, op: Op, t: State) {
    match op
    case BeginRead(path, canOpen) =>
      if path in s.m || canOpen then Linked(s) && Evicted(Pin(s, path), max, t) else t == s
    case EndRead(i) => i in s.flights && i < |s.ents| && s.ents[i].refs > 0 && t == End(s, i)
    case DropPath(path) => Retires(s, {path}, t)
    case DropBelow(prefix) => Retires(s, WithPrefix(s.m.Keys, prefix), t)
    case DropAll => Retires(s, s.m.Keys, t)
  }

  // ---------------------------------------------------------------- every step keeps Inv

  lemma RetireKeeps(s: State, ps: set<Path>, t: State)
    requires Inv(s) && Retires(s, ps, t)
    ensures Inv(t)
  {
    forall i | 0 <= i < |s.ents| ensures EntOk(t, i) {
      assert EntOk(s, i);
    }
  }

  /** Everything in Inv except the condition on entry `k`, whose file is open. */
  ghost predicate InvBut(s: State, k: nat) {
    && Linked(s)
    && k < |s.ents| && InMap(s, k) && s.ents[k].refs == s.flights[k] && !s.ents[k].dead && s.ents[k].closes == 0
    && (forall i :: 0 <= i < |s.ents| && i != k ==> EntOk(s, i))
    && (forall i :: i in s.flights ==> i < |s.ents|)
  }

  lemma TouchKeeps(s: State, k: nat)
    requires InvBut(s, k) || (Inv(s) && k < |s.ents| && InMap(s, k))
    ensures Inv(Touch(s, k))
  {
    var t := Touch(s, k);
    forall i | 0 <= i < |t.ents| ensures EntOk(t, i) && (InMap(t, i) <==> InMap(s, i)) {
      if i != k || Inv(s) { assert EntOk(s, i); }
    }
  }

  lemma InsertLinks(s: State, path: Path)
    requires Inv(s) && path !in s.m
    ensures InvBut(Insert(s, path), |s.ents|)
  {
    var t := Insert(s, path);
    forall i | 0 <= i < |s.ents| ensures EntOk(t, i) && (InMap(t, i) <==> InMap(s, i)) {
      assert EntOk(s, i);
    }
  }

  lemma PinKeeps(s: State, path: Path)
    requires Inv(s)
    ensures Inv(Pin(s, path)) && path in Pin(s, path).m
  {
    if path in s.m {
      TouchKeeps(s, s.m[path]);
    } else {
      InsertLinks(s, path);
      TouchKeeps(Insert(s, path), |s.ents|);
    }
  }

  lemma EndKeeps(s: State, i: nat)
    requires Inv(s) && i in s.flights
    ensures EntOk(s, i) && Inv(End(s, i))
  {
    assert EntOk(s, i);
    var t := End(s, i);
    forall j | 0 <= j < |t.ents| ensures EntOk(t, j) && (InMap(t, j) <==> InMap(s, j)) {
      assert EntOk(s, j);
    }
  }

  lemma NextKeeps(s: State, max: nat, op: Op, t: State)
    requires Inv(s) && Next(s, max, op, t)
    ensures Inv(t)
  {
    match op
    case BeginRead(path, canOpen) =>
      if path in s.m || canOpen {
        PinKeeps(s, path);
        var gone, h :| Evicting(Pin(s, path), max, gone, h, t);
        RetireKeeps(Pin(s, path), gone, t);
      }
    case EndRead(i) => EndKeeps(s, i);
    case DropPath(path) => RetireKeeps(s, {path}, t);
    case DropBelow(prefix) => RetireKeeps(s, WithPrefix(s.m.Keys, prefix), t);
    case DropAll => RetireKeeps(s, s.m.Keys, t);
  }

  // ---------------------------------------------------------------- every interleaving

  /** `states` is what some interleaving of critical sections goes through. */
  ghost predicate IsRun(states: seq<State>, ops: seq<Op>, max: nat) {
    && |states| == |ops| + 1 && states[0] == INITIAL
    && forall k :: 0 <= k < |ops| ==> Next(states[k], max, ops[k], states[k + 1])
  }

  lemma {:induction false} RunKeeps(states: seq<State>, ops: seq<Op>, max: nat, k: nat)
    requires IsRun(states, ops, max) && k < |states|
    ensures Inv(states[k])
  {
    if k > 0 {
      RunKeeps(states, ops, max, k - 1);
      NextKeeps(states[k - 1], max, ops[k - 1], states[k]);
    }
  }

  /** At every point of every interleaving: a handle some read holds is open; no handle has
      been closed twice; and when no read is in flight, the open handles are those in the map. */
  lemma HandlesAreSafe(states: seq<State>, ops: seq<Op>, max: nat, k: nat)
    requires IsRun(states, ops, max) && k < |states|
    ensures forall i :: i in states[k].flights ==> i < |states[k].ents| && states[k].ents[i].closes == 0
    ensures forall i :: 0 <= i < |states[k].ents| ==> states[k].ents[i].closes <= 1
    ensures states[k].flights == multiset{} ==>
              forall i :: 0 <= i < |states[k].ents| ==> (states[k].ents[i].closes == 0 <==> InMap(states[k], i))
  {
    RunKeeps(states, ops, max, k);
    InvIsSafe(states[k]);
  }

  lemma InvIsSafe(s: State)
    requires Inv(s)
    ensures forall i :: i in s.flights ==> i < |s.ents| && s.ents[i].closes == 0
    ensures forall i :: 0 <= i < |s.ents| ==> s.ents[i].closes <= 1
    ensures s.flights == multiset{} ==>
              forall i :: 0 <= i < |s.ents| ==> (s.ents[i].closes == 0 <==> InMap(s, i))
  {
    forall i | i in s.flights ensures i < |s.ents| && s.ents[i].closes == 0 { assert EntOk(s, i); }
    forall i | 0 <= i < |s.ents|
      ensures s.ents[i].closes <= 1 && (s.flights == multiset{} ==> (s.ents[i].closes == 0 <==> InMap(s, i)))
    {
      assert EntOk(s, i);
    }
  }

  // ---------------------------------------------------------------- the size of the map

  /** Paths that all have a read in flight are no more than the reads in flight. */
  lemma {:induction false} PinnedAreFew(s: State, ps: set<Path>, flights: multiset<nat>)
    requires Linked(s)
    requires forall p :: p in ps ==> p in s.m && s.m[p] in flights
    ensures |ps| <= |flights|
    decreases |ps|
  {
    if ps != {} {
      var p :| p in ps;
      forall q | q in ps - {p} ensures s.m[q] in flights - multiset{s.m[p]} {
        assert s.m[q] != s.m[p];
      }
      PinnedAreFew(s, ps - {p}, flights - multiset{s.m[p]});
    }
  }

  lemma AllPinned(s: State)
    requires Inv(s) && forall p :: !Idle(s, p)
    ensures |s.m| <= |s.flights|
  {
    forall p | p in s.m ensures s.m[p] in s.flights {
      var i := s.m[p];
      assert !Idle(s, p) && InMap(s, i);
      assert EntOk(s, i);
    }
    PinnedAreFew(s, s.m.Keys, s.flights);
    assert |s.m.Keys| == |s.m|;
  }

  lemma PinFacts(s: State, path: Path)
    requires Linked(s)
    ensures var t := Pin(s, path);
            && path in t.m && t.m[path] < |t.ents| && !Idle(t, path)
            && t.ents[t.m[path]].used == t.clock == s.clock + 1
            && t.flights == s.flights + multiset{t.m[path]}
            && (path in s.m ==> t.m[path] == s.m[path])
  {}

  lemma PinnedStays(s: State, max: nat, t: State, path: Path)
    requires Linked(s) && Evicted(s, max, t) && path in s.m && !Idle(s, path)
    ensures path in t.m && t.m[path] == s.m[path] < |t.ents| && t.ents[s.m[path]] == s.ents[s.m[path]]
    ensures t.clock == s.clock && t.flights == s.flights
  {
    var gone, h :| Evicting(s, max, gone, h, t);
    assert path !in gone;
  }

  /** A first section that gets its handle pins it, keeps it in the map as the most recently
      used entry, and leaves the map no larger than its cap or the number of reads in flight,
      whichever is more. */
  lemma BeginBoundsMap(s: State, max: nat, path: Path, canOpen: bool, t: State)
    requires Inv(s) && Next(s, max, BeginRead(path, canOpen), t) && (path in s.m || canOpen)
    ensures path in t.m && t.m[path] < |t.ents| && t.ents[t.m[path]].used == t.clock == s.clock + 1
    ensures t.flights == s.flights + multiset{t.m[path]}
    ensures path in s.m ==> t.m[path] == s.m[path]
    ensures |t.m| <= max || |t.m| <= |t.flights|
  {
    PinFacts(s, path);
    PinnedStays(Pin(s, path), max, t, path);
    if |t.m| > max {
      NextKeeps(s, max, BeginRead(path, canOpen), t);
      AllPinned(t);
    }
  }

  /** Whatever has left the map was used before `used`. */
  ghost predicate LeftBefore(s: State, t: State, used: nat) {
    forall p :: p in s.m && p !in t.m && s.m[p] < |s.ents| ==> s.ents[s.m[p]].used < used
  }

  /** What eviction does, entry by entry: what stays is as it was, what leaves nobody held, was used
      before every idle entry that stays, and left only while the map was over its cap; and the map
      ends within its cap unless reads hold everything in it. */
  lemma EvictedIs(s: State, max: nat, t: State)
    requires Linked(s) && Evicted(s, max, t)
    ensures forall p :: p in t.m ==>
              p in s.m && t.m[p] == s.m[p] < |s.ents| == |t.ents| && t.ents[t.m[p]] == s.ents[s.m[p]]
    ensures forall p :: p in s.m && p !in t.m ==> s.m[p] < |s.ents| && s.ents[s.m[p]].refs == 0 && |t.m| >= max
    ensures forall q :: q in t.m && t.ents[t.m[q]].refs == 0 ==> LeftBefore(s, t, t.ents[t.m[q]].used)
    ensures |t.m| <= max || forall p :: p in t.m ==> t.ents[t.m[p]].refs > 0
  {
    var gone, h :| Evicting(s, max, gone, h, t);
    forall p | p in t.m
      ensures p in s.m && t.m[p] == s.m[p] < |s.ents| == |t.ents| && t.ents[t.m[p]] == s.ents[s.m[p]]
    {
      assert t.ents[s.m[p]] == EntAfter(s, gone, s.m[p]);
    }
    forall q | q in t.m && t.ents[t.m[q]].refs == 0 ensures LeftBefore(s, t, t.ents[t.m[q]].used) {
      assert Idle(s, q) && Used(s, q) > h;
      forall p | p in s.m && p !in t.m && s.m[p] < |s.ents| ensures s.ents[s.m[p]].used <= h {
        assert p in gone && Used(s, p) <= h;
      }
    }
    if |t.m| > max {
      forall p | p in t.m ensures t.ents[t.m[p]].refs > 0 { assert !Idle(t, p); }
    }
  }

  /** What a read does to the map and its entry before it evicts. */
  lemma PinIs(s: State, path: Path)
    requires Linked(s)
    ensures var u := Pin(s, path);
            && Linked(u) && u.clock == s.clock + 1 && u.m.Keys == s.m.Keys + {path}
            && (forall p :: p in s.m && p != path ==> u.m[p] == s.m[p] && u.ents[u.m[p]] == s.ents[s.m[p]])
            && var e := u.ents[u.m[path]];
               && e.used == u.clock
               && (path in s.m ==> u.m[path] == s.m[path] && e.refs == s.ents[s.m[path]].refs + 1)
               && (path !in s.m ==> u.m[path] == |s.ents| && e.refs == 1)
  {}

  // ---------------------------------------------------------------- retiring one by one

  lemma RetireNone(s: State, ps: set<Path>)
    requires ps !! s.m.Keys
    ensures Retires(s, ps, s)
  {
    assert s.m - ps == s.m;
  }

  lemma RetireMore(s: State, done: set<Path>, t: State, p: Path)
    requires Linked(s) && Retires(s, done, t) && p in t.m
    ensures Linked(t) && Retires(s, done + {p}, RetireOne(t, p))
  {
    var u := RetireOne(t, p);
    assert u.m == s.m - (done + {p});
    forall i | 0 <= i < |s.ents| ensures u.ents[i] == EntAfter(s, done + {p}, i) {
      assert t.ents[i] == EntAfter(s, done, i);
    }
  }

  lemma IdleAfter(s: State, gone: set<Path>, t: State, p: Path)
    requires Linked(s) && Retires(s, gone, t)
    ensures Idle(t, p) <==> Idle(s, p) && p !in gone
    ensures Idle(t, p) ==> Used(t, p) == Used(s, p)
  {}

  lemma UsedDiffer(s: State, p: Path, q: Path)
    requires Inv(s) && p in s.m && q in s.m && p != q
    ensures Used(s, p) != Used(s, q)
  {
    assert EntOk(s, s.m[p]) && EntOk(s, s.m[q]);
  }

  /** Retiring a least recently used idle entry of a map over its cap is one step of eviction. */
  lemma EvictOneMore(s: State, max: nat, gone: set<Path>, h: nat, t: State, p: Path)
    requires Inv(s) && Evicting(s, max, gone, h, t) && Linked(t) && |t.m| > max && IsLru(t, p)
    ensures Evicting(s, max, gone + {p}, Used(t, p), RetireOne(t, p))
  {
    RetireMore(s, gone, t, p);
    assert |RetireOne(t, p).m| == |t.m| - 1 by { assert |t.m.Keys - {p}| == |t.m.Keys| - 1; MapSize(t.m, p); }
    IdleAfter(s, gone, t, p);
    forall q | Idle(s, q) && q !in gone + {p} ensures Used(s, q) > Used(t, p) {
      IdleAfter(s, gone, t, q);
      UsedDiffer(s, p, q);
    }
  }

  lemma MapSize<V>(m: map<Path, V>, p: Path)
    requires p in m
    ensures |m - {p}| == |m| - 1
  {
    assert (m - {p}).Keys == m.Keys - {p};
    assert |(m - {p}).Keys| == |m - {p}| && |m.Keys| == |m|;
  }

  lemma SameSize<V, W>(a: map<Path, V>, b: map<Path, W>)
    requires a.Keys == b.Keys
    ensures |a| == |b|
  {
    assert |a| == |a.Keys| == |b.Keys| == |b|;
  }

  // ---------------------------------------------------------------- the cache itself

  /** A cached handle: the entry and the open file it owns. */
  class FdEntry {
    const path: Path
    ghost const id: nat
    var used: nat
    var refs: nat
    var dead: bool
    var closes: nat

    constructor (path: Path, ghost id: nat)
      ensures this.path == path && this.id == id
      ensures Value() == Ent(path, 0, 0, false, 0)
    {
      this.path, this.id := path, id;
      used, refs, dead, closes := 0, 0, false, 0;
    }

    ghost function Value(): Ent
      reads this
    {
      Ent(path, used, refs, dead, closes)
    }

    method Close()
      modifies this`closes
      ensures closes == old(closes) + 1
    {
      closes := closes + 1;
    }

    /** Reading a file that has been closed fails. */
    method Pread()
      requires closes == 0
    {}
  }

  class FdCache {
    const max: nat
    var clock: nat
    var m: map<Path, FdEntry>
    ghost var all: seq<FdEntry>
    ghost var repr: set<FdEntry>
    ghost var st: State  // what the cache stands for

    /** The mutable objects are the ones the value `st` describes. */
    ghost predicate Tied()
      reads this, repr
    {
      && clock == st.clock && m.Keys == st.m.Keys && |all| == |st.ents|
      && (forall e :: e in repr ==> e.id < |all| && all[e.id] == e && st.ents[e.id] == e.Value())
      && (forall p :: p in m ==> m[p] in repr && m[p].id == st.m[p] && m[p].path == p)
    }

    ghost predicate Valid()
      reads this, repr
    {
      Tied() && Inv(st)
    }

    constructor (max: nat)
      ensures Valid() && st == INITIAL && this.max == max && repr == {}
    {
      this.max := max;
      clock, m := 0, map[];
      all, repr, st := [], {}, INITIAL;
    }

    /** Removes an entry from the map, closing its file unless a read holds it. */
    method RetireLocked(path: Path, e: FdEntry)
      requires Tied() && Linked(st) && path in m && m[path] == e
      modifies this`m, this`st, e
      ensures Tied() && st == RetireOne(old(st), path) && m == old(m) - {path}
    {
      m := m - {path};
      if e.refs == 0 {
        e.Close();
      } else {
        e.dead := true;
      }
      st := RetireOne(st, path);
    }

    /** The scan for the least recently used entry that no read holds. */
    method FindLru() returns (best: FdEntry?)
      requires Tied() && Linked(st)
      ensures best == null ==> forall p :: !Idle(st, p)
      ensures best != null ==> best.path in m && m[best.path] == best && IsLru(st, best.path)
    {
      best := null;
      var rest := m.Keys;
      while rest != {}
        invariant rest <= m.Keys
        invariant best != null ==> best.path in m && m[best.path] == best && best.refs == 0
        invariant forall k :: k in m && k !in rest && m[k].refs == 0 ==> best != null && best.used <= m[k].used
      {
        var k :| k in rest;
        rest := rest - {k};
        var e := m[k];
        if e.refs == 0 && (best == null || e.used < best.used) {
          best := e;
        }
      }
    }

    /** Retires least recently used idle handles until the map is within its cap. */
    method EvictLocked()
      requires Valid()
      modifies this`m, this`st, repr
      ensures Tied() && Evicted(old(st), max, st)
    {
      ghost var s, gone, h := st, {}, 0;
      RetireNone(s, {});
      forall p | Idle(s, p) ensures Used(s, p) > 0 { assert EntOk(s, s.m[p]); }
      while |m| > max
        invariant Tied() && Linked(st) && Evicting(s, max, gone, h, st)
        decreases |m|
      {
        var victim := FindLru();
        if victim == null {
          return;
        }
        gone, h := EvictOne(victim, s, gone, h);
      }
      SameSize(st.m, m);
    }

    method EvictOne(victim: FdEntry, ghost s: State, ghost gone: set<Path>, ghost h: nat)
        returns (ghost gone': set<Path>, ghost h': nat)
      requires Tied() && Linked(st) && Inv(s) && Evicting(s, max, gone, h, st)
      requires |m| > max && victim.path in m && m[victim.path] == victim && IsLru(st, victim.path)
      modifies this`m, this`st, victim
      ensures Tied() && Linked(st) && Evicting(s, max, gone', h', st) && |m| < old(|m|)
    {
      SameSize(st.m, m);
      EvictOneMore(s, max, gone, h, st, victim.path);
      MapSize(m, victim.path);
      gone', h' := gone + {victim.path}, Used(st, victim.path);
      RetireLocked(victim.path, victim);
    }

    /** The first critical section of a read: finds or opens the handle, touches it, pins it
        and only then evicts.  Returns null when the blob cannot be opened. */
    method ReadAtBegin(path: Path, canOpen: bool) returns (e: FdEntry?)
      requires Valid()
      modifies this, repr
      ensures Valid() && Next(old(st), max, BeginRead(path, canOpen), st)
      ensures e == null <==> path !in old(st).m && !canOpen
      ensures e != null ==> e in repr && e.id in st.flights
      ensures forall o :: o in repr ==> o in old(repr) || fresh(o)
    {
      ghost var s := st;
      if path in m || canOpen {
        e := PinAndEvict(path);
      } else {
        e := null;
      }
      NextKeeps(s, max, BeginRead(path, canOpen), st);
    }

    method PinAndEvict(path: Path) returns (e: FdEntry)
      requires Valid()
      modifies this, repr
      ensures Tied() && Evicted(Pin(old(st), path), max, st) && e in repr && e.id in st.flights
      ensures forall o :: o in repr ==> o in old(repr) || fresh(o)
    {
      e := PinPath(path);
      EvictLocked();
    }

    method PinPath(path: Path) returns (e: FdEntry)
      requires Valid()
      modifies this, repr
      ensures Valid() && st == Pin(old(st), path) && e in repr && e.id in st.flights
      ensures forall o :: o in repr ==> o in old(repr) || fresh(o)
    {
      PinKeeps(st, path);
      if path in m {
        e := m[path];
      } else {
        e := Open(path);
      }
      Hold(e);
    }

    method Open(path: Path) returns (e: FdEntry)
      requires Tied() && path !in m
      modifies this`m, this`all, this`repr, this`st
      ensures Tied() && st == Insert(old(st), path) && repr == old(repr) + {e}
      ensures path in m && m[path] == e && e.id == |old(st).ents| && fresh(e)
    {
      e := new FdEntry(path, |all|);
      m := m[path := e];
      all, repr := all + [e], repr + {e};
      st := Insert(st, path);
    }

    method Hold(e: FdEntry)
      requires Tied() && e in repr
      modifies this`clock, this`st, e
      ensures Tied() && e.id < |old(st).ents| && st == Touch(old(st), e.id)
    {
      clock := clock + 1;
      e.used := clock;
      e.refs := e.refs + 1;
      st := Touch(st, e.id);
    }

    /** The pread between the two critical sections, at any time before the second. */
    method Pread(e: FdEntry)
      requires Valid() && e in repr && e.id in st.flights
    {
      InvIsSafe(st);
      assert st.ents[e.id] == e.Value();
      e.Pread();
    }

    /** The second critical section of a read. */
    method ReadAtEnd(e: FdEntry)
      requires Valid() && e in repr && e.id in st.flights
      modifies this`st, e
      ensures Valid() && Next(old(st), max, EndRead(e.id), st)
      ensures Unpinned(e)
    {
      EndKeeps(st, e.id);
      Release(e);
    }

    /** One read fewer holds the entry, and if it was the last one of an entry that has left the map,
        its file has been closed. */
    twostate predicate Unpinned(e: FdEntry)
      reads e
    {
      && e.refs == old(e.refs) - 1 && e.used == old(e.used) && e.dead == old(e.dead)
      && e.closes == old(e.closes) + if e.dead && e.refs == 0 then 1 else 0
    }

    method Release(e: FdEntry)
      requires Tied() && e in repr && e.refs > 0
      modifies this`st, e
      ensures Unpinned(e)
      ensures Tied() && e.id < |old(st).ents| && old(st).ents[e.id].refs > 0 && st == End(old(st), e.id)
    {
      assert st.ents[e.id] == e.Value();
      e.refs := e.refs - 1;
      if e.dead && e.refs == 0 {
        e.Close();
      }
      st := End(st, e.id);
    }

    method Drop(path: Path)
      requires Valid()
      modifies this`m, this`st, repr
      ensures Valid() && Next(old(st), max, DropPath(path), st)
      ensures m == old(m) - {path}
      ensures path in old(m) ==> HasLeft(old(m)[path])
    {
      ghost var s := st;
      RetireNone(s, {});
      if path in m {
        RetireMore(s, {}, s, path);
        assert {} + {path} == {path};
        RetireLocked(path, m[path]);
      } else {
        RetireNone(s, {path});
      }
      RetiredHaveLeft({path});
      RetireKeeps(s, {path}, st);
    }

    method DropPrefix(prefix: Path)
      requires Valid()
      modifies this`m, this`st, repr
      ensures Valid() && Next(old(st), max, DropBelow(prefix), st)
      ensures forall p :: p in m <==> p in old(m) && !(prefix.text <= p.text)
      ensures forall p :: p in m ==> m[p] == old(m)[p]
      ensures forall p :: p in old(m) && p !in m ==> HasLeft(old(m)[p])
    {
      ghost var s := st;
      RetireEach(WithPrefix(m.Keys, prefix));
      RetiredHaveLeft(WithPrefix(old(m.Keys), prefix));
      RetireKeeps(s, WithPrefix(s.m.Keys, prefix), st);
    }

    method CloseAll()
      requires Valid()
      modifies this`m, this`st, repr
      ensures Valid() && Next(old(st), max, DropAll, st)
      ensures m == map[] && forall p :: p in old(m) ==> HasLeft(old(m)[p])
    {
      ghost var s := st;
      RetireEach(m.Keys);
      RetiredHaveLeft(old(m.Keys));
      RetireKeeps(s, s.m.Keys, st);
    }

    /** The entry has just left the map: its file has been closed, unless a read still holds it. */
    twostate predicate HasLeft(e: FdEntry)
      reads e
    {
      && e.refs == old(e.refs)
      && (e.refs == 0 ==> e.closes == old(e.closes) + 1)
      && (e.refs > 0 ==> e.dead && e.closes == old(e.closes))
    }

    twostate lemma RetiredHaveLeft(paths: set<Path>)
      requires old(Tied()) && old(Linked(st)) && Tied() && repr == old(repr) && all == old(all)
      requires Retires(old(st), paths, st)
      ensures m == old(m) - paths && forall p :: p in paths && p in old(m) ==> HasLeft(old(m[p]))
    {
      assert m.Keys == old(m).Keys - paths;
      forall p | p in m ensures m[p] == old(m[p]) { assert all[st.m[p]] == m[p] && old(all[st.m[p]] == m[p]); }
      forall p | p in paths && p in old(m) ensures HasLeft(old(m[p])) {
        var e := old(m[p]);
        assert old(st.ents[e.id] == e.Value()) && st.ents[e.id] == e.Value();
        assert InMap(old(st), e.id) && st.ents[e.id] == EntAfter(old(st), paths, e.id);
      }
    }

    /** The range loop of DropPrefix and CloseAll, in whatever order the map yields its keys. */
    method RetireEach(paths: set<Path>)
      requires Tied() && Linked(st) && paths <= m.Keys
      modifies this`m, this`st, repr
      ensures Tied() && Retires(old(st), paths, st)
    {
      ghost var s := st;
      var todo, done := paths, {};
      RetireNone(s, {});
      while todo != {}
        invariant Tied() && todo <= m.Keys && todo !! done && todo + done == paths
        invariant Retires(s, done, st)
        decreases todo
      {
        var p :| p in todo;
        RetireMore(s, done, st, p);
        RetireLocked(p, m[p]);
        todo, done := todo - {p}, done + {p};
      }
      assert done == paths;
    }
  }
}
