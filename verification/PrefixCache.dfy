/** The two-tier piece storage of streamer/storage_prefixcache.go: a byte-budgeted cache that
    evicts by how far a piece is from every reader, beside a persistent prefix tier. */
module PrefixCache {
  import opened Seqs
  import opened Sums
  import opened Completion

  type Readers = map<Hash, map<nat, nat>>

  const INACTIVE_BASE := 0x4000_0000
  const BEHIND_BASE := 0x10_0000

  // ---------------------------------------------------------------- scores

  /** The playheads of a torrent's readers. */
  function Playheads(readers: Readers, ih: Hash): set<nat> {
    if ih in readers then readers[ih].Values else {}
  }

  function ReadersOf(readers: Readers, ih: Hash): map<nat, nat> {
    if ih in readers then readers[ih] else map[]
  }

  predicate IsReader(readers: Readers, ih: Hash, id: nat) {
    ih in readers && id in readers[ih]
  }

  /** Every other reader, of whichever torrent, is there as it was. */
  ghost predicate OthersStay(before: Readers, ih: Hash, id: nat, after: Readers) {
    forall h, i | h != ih || i != id ::
      && (IsReader(after, h, i) <==> IsReader(before, h, i))
      && (IsReader(after, h, i) ==> after[h][i] == before[h][i])
  }

  function SetReader(readers: Readers, ih: Hash, id: nat, pos: nat): Readers {
    var m: map<nat, nat> := ReadersOf(readers, ih)[id := pos];
    readers[ih := m]
  }

  function ScoreAgainst(r: nat, index: nat): nat {
    if index < r then BEHIND_BASE + (r - index) else index - r
  }

  ghost predicate IsScore(ps: set<nat>, index: nat, s: nat) {
    if ps == {} then s == INACTIVE_BASE + index
    else (exists r :: r in ps && s == ScoreAgainst(r, index)) && forall r :: r in ps ==> s <= ScoreAgainst(r, index)
  }

  /** The most protective verdict over all playheads. */
  ghost function Score(ps: set<nat>, index: nat): (s: nat)
    ensures IsScore(ps, index, s)
  {
    ScoreExists(ps, index);
    var s :| IsScore(ps, index, s);
    s
  }

  lemma {:induction false} ScoreExists(ps: set<nat>, index: nat)
    ensures exists s :: IsScore(ps, index, s)
    decreases ps
  {
    if ps == {} {
      assert IsScore(ps, index, INACTIVE_BASE + index);
    } else {
      var r :| r in ps;
      if ps == {r} {
        assert IsScore(ps, index, ScoreAgainst(r, index));
      } else {
        ScoreExists(ps - {r}, index);
        var s :| IsScore(ps - {r}, index, s);
        var q :| q in ps - {r} && s == ScoreAgainst(q, index);
        var best := if ScoreAgainst(r, index) < s then r else q;
        assert best in ps && IsScore(ps, index, ScoreAgainst(best, index));
      }
    }
  }

  lemma ScoreIs(ps: set<nat>, index: nat, s: nat)
    requires IsScore(ps, index, s)
    ensures Score(ps, index) == s
  {
    var t := Score(ps, index);
    if ps != {} {
      var r :| r in ps && s == ScoreAgainst(r, index);
      var q :| q in ps && t == ScoreAgainst(q, index);
    }
  }

  /** A piece at or ahead of some playhead scores its distance from the nearest such playhead, if and
      only if that is no more than its score against each reader that has passed it. */
  lemma ScoreOfAhead(ps: set<nat>, index: nat, nearest: nat)
    requires nearest in ps && nearest <= index && forall r :: r in ps && r <= index ==> r <= nearest
    ensures Score(ps, index) == index - nearest <==>
            forall r :: r in ps && index < r ==> index - nearest <= BEHIND_BASE + (r - index)
  {
    assert ScoreAgainst(nearest, index) == index - nearest;
    if forall r :: r in ps && index < r ==> index - nearest <= BEHIND_BASE + (r - index) {
      ScoreIs(ps, index, index - nearest);
    } else {
      var r :| r in ps && index < r && index - nearest > BEHIND_BASE + (r - index);
      assert Score(ps, index) <= ScoreAgainst(r, index);
    }
  }

  /** A piece behind every playhead scores by its distance from the rearmost one. */
  lemma ScoreOfBehind(ps: set<nat>, index: nat, rearmost: nat)
    requires rearmost in ps && index < rearmost && forall r :: r in ps ==> rearmost <= r
    ensures Score(ps, index) == 0x10_0000 + (rearmost - index)
  {
    ScoreIs(ps, index, ScoreAgainst(rearmost, index));
  }

  /** A piece of a torrent nobody watches scores by its place in the torrent. */
  lemma ScoreOfUnwatched(index: nat)
    ensures Score({}, index) == 0x4000_0000 + index
  {
    ScoreIs({}, index, 0x4000_0000 + index);
  }

  /** How useful a piece is: 0 when some reader has yet to play it, 1 when it is behind every
      reader, 2 when nobody watches its torrent. */
  ghost function Class(ps: set<nat>, index: nat): int {
    if ps == {} then 2 else if forall r :: r in ps ==> index < r then 1 else 0
  }

  /** The piece and the playheads are below `n`. */
  predicate Below(ps: set<nat>, index: nat, n: nat) {
    index < n && forall r :: r in ps ==> r < n
  }

  /** In torrents of at most `n` pieces, a more useful piece always scores less. */
  ghost predicate Separated(n: nat) {
    forall ps: set<nat>, i: nat, qs: set<nat>, j: nat ::
      Below(ps, i, n) && Below(qs, j, n) && Class(ps, i) < Class(qs, j) ==> Score(ps, i) < Score(qs, j)
  }

  /** And never scores more. */
  ghost predicate NeverReversed(n: nat) {
    forall ps: set<nat>, i: nat, qs: set<nat>, j: nat ::
      Below(ps, i, n) && Below(qs, j, n) && Class(ps, i) < Class(qs, j) ==> Score(ps, i) <= Score(qs, j)
  }

  lemma ScoreBounds(ps: set<nat>, index: nat, n: nat)
    requires Below(ps, index, n)
    ensures Class(ps, index) == 0 ==> Score(ps, index) < n
    ensures Class(ps, index) == 1 ==> BEHIND_BASE < Score(ps, index) < BEHIND_BASE + n
    ensures Class(ps, index) == 2 ==> Score(ps, index) >= INACTIVE_BASE
  {
    if Class(ps, index) == 0 {
      var r :| r in ps && r <= index;
      assert Score(ps, index) <= ScoreAgainst(r, index);
    }
    if ps != {} {
      var p :| p in ps && Score(ps, index) == ScoreAgainst(p, index);
    }
  }

  /** The score classes are apart, so that no piece some reader has yet to play scores as high as one
      behind all readers or of a torrent nobody watches, if and only if torrents have at most
      2^20 + 1 pieces; and one never scores higher if and only if they have at most 2^20 + 2. */
  lemma ClassesSeparateIff(n: nat)
    ensures Separated(n) <==> n <= BEHIND_BASE + 1
    ensures NeverReversed(n) <==> n <= BEHIND_BASE + 2
  {
    forall ps: set<nat>, i: nat, qs: set<nat>, j: nat
      | Below(ps, i, n) && Below(qs, j, n) && Class(ps, i) < Class(qs, j)
      ensures n <= BEHIND_BASE + 1 ==> Score(ps, i) < Score(qs, j)
      ensures n <= BEHIND_BASE + 2 ==> Score(ps, i) <= Score(qs, j)
    {
      ScoreBounds(ps, i, n);
      ScoreBounds(qs, j, n);
    }
    if n > BEHIND_BASE + 1 { TooFarAhead(n, BEHIND_BASE + 1); }
    if n > BEHIND_BASE + 2 { TooFarAhead(n, BEHIND_BASE + 2); }
  }

  /** A piece that far ahead of its only reader, against one right behind its own. */
  lemma TooFarAhead(n: nat, index: nat)
    requires BEHIND_BASE < index < n
    ensures Below({0}, index, n) && Below({1}, 0, n) && Class({0}, index) < Class({1}, 0)
    ensures Score({0}, index) == index && Score({1}, 0) == BEHIND_BASE + 1
  {
    assert 0 in {0} && 1 in {1};
    assert ScoreAgainst(0, index) == index && ScoreAgainst(1, 0) == BEHIND_BASE + 1;
    ScoreIs({0}, index, index);
    ScoreIs({1}, 0, BEHIND_BASE + 1);
  }

  /** One more reader of a watched torrent never makes any of its pieces more evictable. */
  lemma ReaderOnlyProtects(ps: set<nat>, r: nat, index: nat)
    requires ps != {}
    ensures Score(ps + {r}, index) <= Score(ps, index)
  {
    var p :| p in ps && Score(ps, index) == ScoreAgainst(p, index);
    assert p in ps + {r};
  }

  // ---------------------------------------------------------------- eviction

  /** Whether a resident piece may be evicted to make room for `added`. */
  ghost predicate Evictable(cache: map<Key, int>, readers: Readers, retainHot: bool, added: Key, k: Key) {
    k in cache && k != added && !(retainHot && Playheads(readers, k.ih) != {})
  }

  ghost function KeyScore(readers: Readers, k: Key): nat {
    Score(Playheads(readers, k.ih), k.index)
  }

  ghost predicate IsVictim(cache: map<Key, int>, readers: Readers, retainHot: bool, added: Key, v: Key) {
    Evictable(cache, readers, retainHot, added, v) && IsFair(cache, readers, retainHot, added, v)
  }

  /** `v` scores at least as high as every piece that may go. */
  ghost predicate IsFair(cache: map<Key, int>, readers: Readers, retainHot: bool, added: Key, v: Key) {
    forall k :: Evictable(cache, readers, retainHot, added, k) ==> KeyScore(readers, k) <= KeyScore(readers, v)
  }

  lemma FairWithFewer(cache: map<Key, int>, readers: Readers, retainHot: bool, added: Key, v: Key, gone: Key)
    requires IsFair(cache, readers, retainHot, added, v)
    ensures IsFair(cache - {gone}, readers, retainHot, added, v)
  {
    forall k | Evictable(cache - {gone}, readers, retainHot, added, k)
      ensures Evictable(cache, readers, retainHot, added, k)
    {}
  }

  /** Evicting `evicted`, in that order, is what making room for `added` in `full` takes: each
      victim goes while the budget is exceeded and is the most evictable piece at that point,
      and what is left keeps to the budget or holds nothing more that may go. */
  ghost predicate MakesRoom(full: map<Key, int>, readers: Readers, retainHot: bool, cap: int, added: Key,
                            evicted: seq<Key>) {
    && EvictsInOrder(full, readers, retainHot, cap, added, evicted)
    && var left := full - Elements(evicted);
       Sum(left) <= cap || forall k :: !Evictable(left, readers, retainHot, added, k)
  }

  ghost predicate EvictsInOrder(full: map<Key, int>, readers: Readers, retainHot: bool, cap: int, added: Key,
                                evicted: seq<Key>) {
    evicted == [] ||
    var n := |evicted| - 1;
    && EvictsInOrder(full, readers, retainHot, cap, added, evicted[..n])
    && var left := full - Elements(evicted[..n]);
       Sum(left) > cap && IsVictim(left, readers, retainHot, added, evicted[n])
  }

  lemma EvictsOneMore(full: map<Key, int>, readers: Readers, retainHot: bool, cap: int, added: Key,
                      evicted: seq<Key>, v: Key, left: map<Key, int>)
    requires EvictsInOrder(full, readers, retainHot, cap, added, evicted) && left == full - Elements(evicted)
    requires Sum(left) > cap && IsVictim(left, readers, retainHot, added, v)
    ensures EvictsInOrder(full, readers, retainHot, cap, added, evicted + [v])
    ensures full - Elements(evicted + [v]) == left - {v}
  {
    assert (evicted + [v])[..|evicted|] == evicted;
    assert Elements(evicted + [v]) == Elements(evicted) + {v};
  }

  /** After making room: the added piece is resident, a piece of a watched torrent never left
      under retainHot, every victim scored at least as high as every piece that may still go,
      and without the last victim the budget would still be exceeded. */
  lemma {:induction false} RoomIsMadeFairly(full: map<Key, int>, readers: Readers, retainHot: bool, cap: int,
                                            added: Key, evicted: seq<Key>)
    requires added in full && EvictsInOrder(full, readers, retainHot, cap, added, evicted)
    ensures added in full - Elements(evicted)
    ensures forall v :: v in evicted ==> Evictable(full, readers, retainHot, added, v)
    ensures forall v :: v in evicted ==> IsFair(full - Elements(evicted), readers, retainHot, added, v)
    ensures evicted != [] ==> Sum(full - Elements(evicted)) + full[evicted[|evicted| - 1]] > cap
  {
    if evicted != [] {
      var n := |evicted| - 1;
      var before, x := full - Elements(evicted[..n]), evicted[n];
      RoomIsMadeFairly(full, readers, retainHot, cap, added, evicted[..n]);
      JoinLast(evicted);
      ElementsMore(evicted[..n], x);
      assert full - Elements(evicted) == before - {x};
      SumWithout(before, x);
      forall v | v in evicted ensures IsFair(before - {x}, readers, retainHot, added, v) {
        FairWithFewer(before, readers, retainHot, added, v, x);
      }
    }
  }

  /** So in torrents of at most 2^20 + 1 pieces, no piece some reader has yet to play is evicted
      while a piece behind all readers, or of a torrent nobody watches, could go instead. */
  lemma UsefulPiecesGoLast(full: map<Key, int>, readers: Readers, retainHot: bool, cap: int, added: Key,
                           evicted: seq<Key>, v: Key, k: Key, n: nat)
    requires added in full && EvictsInOrder(full, readers, retainHot, cap, added, evicted)
    requires v in evicted && Evictable(full - Elements(evicted), readers, retainHot, added, k)
    requires n <= BEHIND_BASE + 1
    requires Below(Playheads(readers, v.ih), v.index, n) && Below(Playheads(readers, k.ih), k.index, n)
    ensures Class(Playheads(readers, k.ih), k.index) <= Class(Playheads(readers, v.ih), v.index)
  {
    RoomIsMadeFairly(full, readers, retainHot, cap, added, evicted);
    assert IsFair(full - Elements(evicted), readers, retainHot, added, v);
    ClassesSeparateIff(n);
  }

  // ---------------------------------------------------------------- the storage itself

  /** What others may do to the cached pieces between two parts of an operation. */
  datatype Deed =
    | Calling(k: Key)
    | Clearing(k: Key)
    | Adding(k: Key, size: int)
    | Removing(k: Key)
    | Dropping(ih: Hash)

  /** `part` is what came of `deed`. */
  predicate IsDone(deed: Deed, part: Part) {
    match deed
    case Calling(k) => part == SetDone(k)
    case Clearing(k) => part == ClearDone(k)
    case Adding(k, size) => part.Insert? && part.k == k && part.size == size
    case Removing(k) => part == TakeOut(k)
    case Dropping(ih) => part == Drop(ih)
  }

  predicate AreDone(deeds: seq<Deed>, parts: seq<Part>) {
    |parts| == |deeds| && forall i :: 0 <= i < |deeds| ==> IsDone(deeds[i], parts[i])
  }

  class Storage {
    const cacheCap: int
    const retainHot: bool
    var cache: map<Key, int>
    var cacheBytes: int
    var nextReaderId: nat
    var readers: Readers
    var prefixKeys: map<Key, int>
    var prefixResident: int
    var prefixComplete: set<Key>  // persistent
    var cacheComplete: set<Key>   // in memory

    /** The running totals are the sums over their maps, and no reader id above the last one handed
        out is in use. */
    ghost predicate Valid()
      reads this
    {
      && cacheBytes == Sum(cache) && prefixResident == Sum(prefixKeys)
      && (forall ih :: ih in readers ==> readers[ih] != map[])
      && (forall ih, id :: ih in readers && id in readers[ih] ==> 0 < id <= nextReaderId)
    }

    ghost function CacheTier(): Tier
      reads this
    {
      Tier(cache, cacheComplete)
    }

    constructor (cacheCap: int, retainHot: bool, persisted: set<Key>)
      ensures Valid() && this.cacheCap == cacheCap && this.retainHot == retainHot
      ensures CacheTier() == EMPTY && prefixKeys == map[] && readers == map[] && prefixComplete == persisted
    {
      this.cacheCap, this.retainHot := cacheCap, retainHot;
      cache, cacheBytes := map[], 0;
      nextReaderId, readers := 0, map[];
      prefixKeys, prefixResident := map[], 0;
      prefixComplete, cacheComplete := persisted, {};
    }

    /** The capacity reported to the torrent client: room for the cache budget on top of
        everything the storage will not give up. */
    method CapFunc() returns (capacity: int)
      requires Valid()
      ensures capacity == cacheCap + Sum(prefixKeys) + if retainHot then Sum(cache) else 0
    {
      var retained := 0;
      if retainHot {
        retained := cacheBytes;
      }
      capacity := cacheCap + prefixResident + retained;
    }

    method EvictionScore(k: Key) returns (best: int)
      requires Valid()
      ensures best == KeyScore(readers, k)
    {
      if k.ih !in readers {
        return INACTIVE_BASE + k.index;
      }
      best := -1;
      var rest := readers[k.ih].Keys;
      ghost var ps := Playheads(readers, k.ih);
      while rest != {}
        invariant rest <= readers[k.ih].Keys
        invariant best == -1 ==> rest == readers[k.ih].Keys
        invariant best != -1 ==> exists r :: r in ps && best == ScoreAgainst(r, k.index)
        invariant forall id :: id in readers[k.ih] && id !in rest ==>
                    0 <= best <= ScoreAgainst(readers[k.ih][id], k.index)
      {
        var id :| id in rest;
        rest := rest - {id};
        var r := readers[k.ih][id];
        var score := if k.index < r then BEHIND_BASE + (r - k.index) else k.index - r;
        assert score == ScoreAgainst(r, k.index);
        if best == -1 || score < best {
          best := score;
        }
      }
      assert readers[k.ih].Keys != {};
      ScoreIs(ps, k.index, best);
    }

    /** The least useful resident piece other than the one just added. */
    method PickVictim(exclude: Key) returns (best: Key, found: bool)
      requires Valid()
      ensures found ==> IsVictim(cache, readers, retainHot, exclude, best)
      ensures !found ==> forall k :: !Evictable(cache, readers, retainHot, exclude, k)
    {
      best, found := exclude, false;
      var bestScore := -1;
      var rest := cache.Keys;
      while rest != {}
        invariant rest <= cache.Keys
        invariant !found ==> bestScore == -1
        invariant found ==> Evictable(cache, readers, retainHot, exclude, best) && bestScore == KeyScore(readers, best)
        invariant forall k :: Evictable(cache, readers, retainHot, exclude, k) && k !in rest ==>
                    found && KeyScore(readers, k) <= bestScore
      {
        var k :| k in rest;
        rest := rest - {k};
        if k == exclude || (retainHot && k.ih in readers && |readers[k.ih]| > 0) {
          if k != exclude { HotIsWatched(k); }
          continue;
        }
        var score := EvictionScore(k);
        if score > bestScore {
          best, bestScore, found := k, score, true;
        }
      }
    }

    lemma HotIsWatched(k: Key)
      requires k.ih in readers && |readers[k.ih]| > 0
      ensures Playheads(readers, k.ih) != {}
    {
      assert |readers[k.ih].Keys| == |readers[k.ih]|;
      var id :| id in readers[k.ih];
      assert readers[k.ih][id] in readers[k.ih].Values;
    }

    /** The locked part of adding a piece: what it evicts is still called complete. */
    method AddLocked(key: Key, size: int) returns (evicted: seq<Key>)
      requires Valid()
      modifies this`cache, this`cacheBytes
      ensures Valid()
      ensures key in old(cache) ==> evicted == [] && cache == old(cache)
      ensures key !in old(cache) ==>
                && MakesRoom(old(cache)[key := size], readers, retainHot, cacheCap, key, evicted)
                && cache == old(cache)[key := size] - Elements(evicted)
                && EvictsFairly(old(cache)[key := size], key, evicted)
      ensures CanPart(old(CacheTier()), Insert(key, size, evicted))
      ensures CacheTier() == PartStep(old(CacheTier()), Insert(key, size, evicted))
    {
      evicted := [];
      if key in cache {
        return;
      }
      SumWith(cache, key, size);
      cache := cache[key := size];
      cacheBytes := cacheBytes + size;
      ghost var full := cache;
      evicted := MakeRoom(key);
      RoomIsMadeFairly(full, readers, retainHot, cacheCap, key, evicted);
      forall v | v in evicted ensures v in old(cache) && v != key {
        assert Evictable(full, readers, retainHot, key, v);
      }
    }

    /** Adds a piece and clears the completion of what it evicts; others do `between` before that. */
    method AddCachePiece(key: Key, size: int, between: seq<Deed>) returns (evicted: seq<Key>, ghost a: seq<Part>)
      requires Valid()
      modifies this`cache, this`cacheBytes, this`cacheComplete
      ensures Valid() && AreDone(between, a)
      ensures key in old(cache) ==> evicted == []
      ensures key !in old(cache) ==>
                MakesRoom(old(cache)[key := size], readers, retainHot, cacheCap, key, evicted)
      ensures IsPartRun(old(CacheTier()), [Insert(key, size, evicted)] + a + Clears(evicted))
      ensures CacheTier() == PartRun(old(CacheTier()), [Insert(key, size, evicted)] + a + Clears(evicted))
    {
      evicted := AddLocked(key, size);
      PartOneMore(old(CacheTier()), [], Insert(key, size, evicted));
      NoneBefore([Insert(key, size, evicted)]);
      a := Perform(between);
      PartsJoin(old(CacheTier()), [Insert(key, size, evicted)], a);
      Forget(evicted);
      ClearsRun(old(CacheTier()), [Insert(key, size, evicted)] + a, evicted);
    }

    /** What others do to the cached pieces. */
    method Perform(deeds: seq<Deed>) returns (ghost parts: seq<Part>)
      requires Valid()
      modifies this`cache, this`cacheBytes, this`cacheComplete
      ensures Valid() && AreDone(deeds, parts)
      ensures IsPartRun(old(CacheTier()), parts) && CacheTier() == PartRun(old(CacheTier()), parts)
    {
      parts := [];
      for i := 0 to |deeds|
        invariant Valid() && AreDone(deeds[..i], parts)
        invariant IsPartRun(old(CacheTier()), parts) && CacheTier() == PartRun(old(CacheTier()), parts)
      {
        ghost var part := PerformOne(deeds[i]);
        PartOneMore(old(CacheTier()), parts, part);
        TakeMore(deeds, i);
        parts := parts + [part];
      }
      assert deeds[..|deeds|] == deeds;
    }

    method PerformOne(deed: Deed) returns (ghost part: Part)
      requires Valid()
      modifies this`cache, this`cacheBytes, this`cacheComplete
      ensures Valid() && IsDone(deed, part)
      ensures CanPart(old(CacheTier()), part) && CacheTier() == PartStep(old(CacheTier()), part)
    {
      match deed {
        case Calling(k) =>
          part := SetDone(k);
          cacheComplete := cacheComplete + {k};
        case Clearing(k) =>
          part := ClearDone(k);
          cacheComplete := cacheComplete - {k};
        case Adding(k, size) =>
          var evicted := AddLocked(k, size);
          part := Insert(k, size, evicted);
        case Removing(k) =>
          part := TakeOut(k);
          RemoveCacheEntry(k);
        case Dropping(ih) =>
          part := Drop(ih);
          DropCached(ih);
      }
    }

    /** The eviction loop. */
    method MakeRoom(key: Key) returns (evicted: seq<Key>)
      requires Valid() && key in cache
      modifies this`cache, this`cacheBytes
      ensures Valid() && MakesRoom(old(cache), readers, retainHot, cacheCap, key, evicted)
      ensures cache == old(cache) - Elements(evicted)
      ensures EvictsFairly(old(cache), key, evicted)
    {
      evicted := [];
      ghost var full := cache;
      assert full - Elements([]) == full;
      var ok := true;
      while ok && cacheBytes > cacheCap
        invariant Valid() && IsLeft(full, key, evicted)
        invariant !ok ==> forall k :: !Evictable(cache, readers, retainHot, key, k)
        decreases ok, |cache|
      {
        evicted, ok := EvictNext(key, evicted, full);
      }
      FairlyEvicted(full, key, evicted);
    }

    /** Only pieces other than `key` go, none that is retained because its torrent has a reader, and
        none while the budget is kept; and while it is not, pieces go as long as there are such. */
    ghost predicate EvictsFairly(full: map<Key, int>, key: Key, evicted: seq<Key>)
      reads this
    {
      && (forall v :: v in evicted ==> v in full && v != key && !(retainHot && v.ih in readers))
      && (evicted != [] ==> evicted[|evicted| - 1] in full && Sum(cache) + full[evicted[|evicted| - 1]] > cacheCap)
      && (Sum(cache) <= cacheCap || forall k :: k in cache ==> k == key || (retainHot && k.ih in readers))
    }

    lemma FairlyEvicted(full: map<Key, int>, key: Key, evicted: seq<Key>)
      requires Valid() && key in full && MakesRoom(full, readers, retainHot, cacheCap, key, evicted)
      requires cache == full - Elements(evicted)
      ensures EvictsFairly(full, key, evicted)
    {
      RoomIsMadeFairly(full, readers, retainHot, cacheCap, key, evicted);
      forall ih ensures ih in readers <==> Playheads(readers, ih) != {} { WatchedIsHot(ih); }
      forall v | v in evicted ensures v in full && v != key && !(retainHot && v.ih in readers) {
        assert Evictable(full, readers, retainHot, key, v);
      }
      if Sum(cache) > cacheCap {
        forall k | k in cache ensures k == key || (retainHot && k.ih in readers) {
          assert !Evictable(cache, readers, retainHot, key, k);
        }
      }
    }

    lemma WatchedIsHot(ih: Hash)
      requires Valid()
      ensures ih in readers <==> Playheads(readers, ih) != {}
    {
      if ih in readers {
        var id :| id in readers[ih];
        assert readers[ih][id] in readers[ih].Values;
      }
    }

    ghost predicate IsLeft(full: map<Key, int>, added: Key, evicted: seq<Key>)
      reads this
    {
      cache == full - Elements(evicted) && EvictsInOrder(full, readers, retainHot, cacheCap, added, evicted)
    }

    method EvictNext(key: Key, evicted: seq<Key>, ghost full: map<Key, int>) returns (evicted': seq<Key>, ok: bool)
      requires Valid() && IsLeft(full, key, evicted) && cacheBytes > cacheCap
      modifies this`cache, this`cacheBytes
      ensures Valid() && IsLeft(full, key, evicted')
      ensures if ok then |cache| < |old(cache)| else forall k :: !Evictable(cache, readers, retainHot, key, k)
    {
      evicted' := evicted;
      var victim;
      victim, ok := PickVictim(key);
      if ok {
        EvictsOneMore(full, readers, retainHot, cacheCap, key, evicted, victim, cache);
        Evict(victim);
        evicted' := evicted + [victim];
      }
    }

    method Evict(victim: Key)
      requires Valid() && victim in cache
      modifies this`cache, this`cacheBytes
      ensures Valid() && cache == old(cache) - {victim} && |cache| < |old(cache)|
    {
      SumWithout(cache, victim);
      Shrinks(cache, victim);
      cacheBytes := cacheBytes - cache[victim];
      cache := cache - {victim};
    }

    /** Marks evicted pieces incomplete, after the lock has been released. */
    method Forget(evicted: seq<Key>)
      requires Valid()
      modifies this`cacheComplete
      ensures Valid() && cacheComplete == old(cacheComplete) - Elements(evicted)
    {
      for i := 0 to |evicted|
        invariant cacheComplete == old(cacheComplete) - Elements(evicted[..i])
      {
        assert Elements(evicted[..i + 1]) == Elements(evicted[..i]) + {evicted[i]};
        cacheComplete := cacheComplete - {evicted[i]};
      }
      assert evicted[..|evicted|] == evicted;
    }

    method RemoveCacheEntry(key: Key)
      requires Valid()
      modifies this`cache, this`cacheBytes
      ensures Valid() && cache == old(cache) - {key}
    {
      if key in cache {
        SumWithout(cache, key);
        cacheBytes := cacheBytes - cache[key];
        cache := cache - {key};
      } else {
        assert cache - {key} == cache;
      }
    }

    method AddPrefixResident(key: Key, size: int)
      requires Valid()
      modifies this`prefixKeys, this`prefixResident
      ensures Valid() && prefixKeys == if key in old(prefixKeys) then old(prefixKeys) else old(prefixKeys)[key := size]
    {
      if key !in prefixKeys {
        SumWith(prefixKeys, key, size);
        prefixKeys := prefixKeys[key := size];
        prefixResident := prefixResident + size;
      }
    }

    method RemovePrefixResident(key: Key)
      requires Valid()
      modifies this`prefixKeys, this`prefixResident
      ensures Valid() && prefixKeys == old(prefixKeys) - {key}
    {
      if key in prefixKeys {
        SumWithout(prefixKeys, key);
        prefixResident := prefixResident - prefixKeys[key];
        prefixKeys := prefixKeys - {key};
      } else {
        assert prefixKeys - {key} == prefixKeys;
      }
    }

    /** Calls a piece complete, adds it, and clears the completion of what it evicts.  Others do
        `before` and `after` around the part that holds the lock. */
    method MarkComplete(key: Key, isPrefix: bool, length: int, before: seq<Deed>, after: seq<Deed>)
      returns (evicted: seq<Key>, ghost b: seq<Part>, ghost a: seq<Part>)
      requires Valid()
      modifies this
      ensures Valid() && readers == old(readers) && nextReaderId == old(nextReaderId)
      ensures isPrefix ==>
                && evicted == [] && prefixComplete == old(prefixComplete) + {key}
                && prefixKeys == (if key in old(prefixKeys) then old(prefixKeys) else old(prefixKeys)[key := length])
                && CacheTier() == old(CacheTier())
      ensures !isPrefix ==>
                && AreDone(before, b) && AreDone(after, a)
                && prefixKeys == old(prefixKeys) && prefixComplete == old(prefixComplete)
      ensures !isPrefix ==>
                var parts := [SetDone(key)] + b + ([Insert(key, length, evicted)] + a + Clears(evicted));
                && IsPartRun(old(CacheTier()), parts) && CacheTier() == PartRun(old(CacheTier()), parts)
      ensures !isPrefix ==>
                var held := PartRun(old(CacheTier()), [SetDone(key)] + b).cache;
                if key in held then evicted == []
                else MakesRoom(held[key := length], readers, retainHot, cacheCap, key, evicted)
      ensures !isPrefix && before == after == [] ==>
                && CanDo(old(CacheTier()), MarkDone(key, length, evicted))
                && CacheTier() == TierStep(old(CacheTier()), MarkDone(key, length, evicted))
                && cacheComplete == old(cacheComplete) + {key} - Elements(evicted)
                && cache == if key in old(cache) then old(cache) else old(cache)[key := length] - Elements(evicted)
    {
      evicted, b, a := [], [], [];
      if isPrefix {
        prefixComplete := prefixComplete + {key};
        AddPrefixResident(key, length);
      } else {
        ghost var t := CacheTier();
        cacheComplete := cacheComplete + {key};
        PartOneMore(t, [], SetDone(key));
        NoneBefore([SetDone(key)]);
        b := Perform(before);
        PartsJoin(t, [SetDone(key)], b);
        evicted, a := AddCachePiece(key, length, after);
        PartsJoin(t, [SetDone(key)] + b, [Insert(key, length, evicted)] + a + Clears(evicted));
        if before == after == [] { Undisturbed(t, key, length, evicted, b, a); }
      }
    }

    lemma Undisturbed(t: Tier, key: Key, length: int, evicted: seq<Key>, b: seq<Part>, a: seq<Part>)
      requires b == a == []
      requires IsPartRun(t, [SetDone(key)] + b + ([Insert(key, length, evicted)] + a + Clears(evicted)))
      ensures CanDo(t, MarkDone(key, length, evicted))
      ensures PartRun(t, [SetDone(key)] + b + ([Insert(key, length, evicted)] + a + Clears(evicted)))
           == TierStep(t, MarkDone(key, length, evicted))
    {
      var parts := PartsOf(MarkDone(key, length, evicted));
      assert [SetDone(key)] + b + ([Insert(key, length, evicted)] + a + Clears(evicted)) == parts;
      PartsJoin(t, [SetDone(key), Insert(key, length, evicted)], Clears(evicted));
      PartTwoMore(t, [], SetDone(key), Insert(key, length, evicted));
      NoneBefore([SetDone(key), Insert(key, length, evicted)]);
      PartsMakeWhole(t, MarkDone(key, length, evicted));
    }

    /** Takes a piece out and then clears its completion; others do `between` before that. */
    method MarkNotComplete(key: Key, isPrefix: bool, between: seq<Deed>) returns (ghost a: seq<Part>)
      requires Valid()
      modifies this
      ensures Valid() && readers == old(readers) && nextReaderId == old(nextReaderId)
      ensures isPrefix ==>
                && prefixKeys == old(prefixKeys) - {key} && prefixComplete == old(prefixComplete) - {key}
                && CacheTier() == old(CacheTier())
      ensures !isPrefix ==>
                && AreDone(between, a) && prefixKeys == old(prefixKeys) && prefixComplete == old(prefixComplete)
                && IsPartRun(old(CacheTier()), [TakeOut(key)] + a + [ClearDone(key)])
                && CacheTier() == PartRun(old(CacheTier()), [TakeOut(key)] + a + [ClearDone(key)])
      ensures !isPrefix && between == [] ==>
                && CacheTier() == TierStep(old(CacheTier()), MarkUndone(key))
                && cache == old(cache) - {key} && cacheComplete == old(cacheComplete) - {key}
    {
      a := [];
      if isPrefix {
        RemovePrefixResident(key);
        prefixComplete := prefixComplete - {key};
      } else {
        ghost var t := CacheTier();
        RemoveCacheEntry(key);
        PartOneMore(t, [], TakeOut(key));
        NoneBefore([TakeOut(key)]);
        a := Perform(between);
        PartsJoin(t, [TakeOut(key)], a);
        cacheComplete := cacheComplete - {key};
        PartOneMore(t, [TakeOut(key)] + a, ClearDone(key));
      }
    }

    /** Counts as resident every prefix piece that an earlier run left complete on disk. */
    method OpenTorrent(ih: Hash, prefixSet: set<nat>, length: map<nat, int>)
      requires Valid() && prefixSet <= length.Keys
      modifies this`prefixKeys, this`prefixResident
      ensures Valid()
      ensures prefixKeys.Keys == old(prefixKeys.Keys) +
                set i | i in prefixSet && Key(ih, i) in prefixComplete :: Key(ih, i)
      ensures forall k :: k in prefixKeys ==>
                prefixKeys[k] == if k in old(prefixKeys) then old(prefixKeys)[k] else length[k.index]
    {
      var rest := prefixSet;
      while rest != {}
        invariant Valid() && rest <= prefixSet
        invariant prefixKeys.Keys == old(prefixKeys.Keys) +
                    set i | i in prefixSet && i !in rest && Key(ih, i) in prefixComplete :: Key(ih, i)
        invariant forall k :: k in prefixKeys && k !in old(prefixKeys) ==> k.index in prefixSet
        invariant forall k :: k in prefixKeys ==>
                    prefixKeys[k] == if k in old(prefixKeys) then old(prefixKeys)[k] else length[k.index]
      {
        var i :| i in rest;
        rest := rest - {i};
        if Key(ih, i) in prefixComplete {
          AddPrefixResident(Key(ih, i), length[i]);
        }
      }
    }

    /** Forgets everything held for a torrent. */
    method DropTorrent(ih: Hash)
      requires Valid()
      modifies this
      ensures Valid()
      ensures forall k :: k in cache <==> k in old(cache) && k.ih != ih
      ensures forall k :: k in cache ==> cache[k] == old(cache)[k]
      ensures forall k :: k in prefixKeys <==> k in old(prefixKeys) && k.ih != ih
      ensures forall k :: k in prefixKeys ==> prefixKeys[k] == old(prefixKeys)[k]
      ensures cacheComplete == old(cacheComplete)
      ensures readers == old(readers) - {ih} && nextReaderId == old(nextReaderId)
      ensures prefixComplete == old(prefixComplete) - set k | k in old(prefixKeys) && k.ih == ih
      ensures CacheTier() == TierStep(old(CacheTier()), DropAll(ih))
    {
      DropCached(ih);
      DropPrefixed(ih);
      readers := readers - {ih};
    }

    method DropCached(ih: Hash)
      requires Valid()
      modifies this`cache, this`cacheBytes
      ensures Valid() && cache == WithoutTorrent(old(cache), ih)
    {
      var rest := cache.Keys;
      while rest != {}
        invariant Valid() && rest <= cache.Keys
        invariant cache == map k | k in old(cache) && (k in rest || k.ih != ih) :: old(cache)[k]
      {
        var k :| k in rest;
        rest := rest - {k};
        if k.ih == ih {
          RemoveCacheEntry(k);
        }
      }
    }

    method DropPrefixed(ih: Hash)
      requires Valid()
      modifies this`prefixKeys, this`prefixResident, this`prefixComplete
      ensures Valid() && prefixKeys == WithoutTorrent(old(prefixKeys), ih)
      ensures prefixComplete == old(prefixComplete) - set k | k in old(prefixKeys) && k.ih == ih
    {
      var rest, dropped := prefixKeys.Keys, [];
      while rest != {}
        invariant Valid() && rest <= prefixKeys.Keys && prefixComplete == old(prefixComplete)
        invariant prefixKeys == map k | k in old(prefixKeys) && (k in rest || k.ih != ih) :: old(prefixKeys)[k]
        invariant Elements(dropped) == set k | k in old(prefixKeys) && k !in rest && k.ih == ih
      {
        var k :| k in rest;
        rest := rest - {k};
        if k.ih == ih {
          RemovePrefixResident(k);
          assert Elements(dropped + [k]) == Elements(dropped) + {k};
          dropped := dropped + [k];
        }
      }
      ClearPersisted(dropped);
    }

    method ClearPersisted(dropped: seq<Key>)
      requires Valid()
      modifies this`prefixComplete
      ensures Valid() && prefixComplete == old(prefixComplete) - Elements(dropped)
    {
      for i := 0 to |dropped|
        invariant prefixComplete == old(prefixComplete) - Elements(dropped[..i])
      {
        assert Elements(dropped[..i + 1]) == Elements(dropped[..i]) + {dropped[i]};
        prefixComplete := prefixComplete - {dropped[i]};
      }
      assert dropped[..|dropped|] == dropped;
    }

    // -------------------------------------------------------------- readers

    /** Hands out an id no reader has had before; the new reader starts at the first piece. */
    method RegisterReader(ih: Hash) returns (id: nat)
      requires Valid()
      modifies this`nextReaderId, this`readers
      ensures Valid() && id == nextReaderId == old(nextReaderId) + 1
      ensures forall h :: h in old(readers) ==> id !in old(readers)[h]
      ensures IsReader(readers, ih, id) && readers[ih][id] == 0 && OthersStay(old(readers), ih, id, readers)
      ensures Playheads(readers, ih) == Playheads(old(readers), ih) + {0}
      ensures forall h | h != ih :: Playheads(readers, h) == Playheads(old(readers), h)
      ensures readers == SetReader(old(readers), ih, id, 0)
    {
      nextReaderId := nextReaderId + 1;
      id := nextReaderId;
      NewPlayhead(readers, ih, id, 0);
      var m: map<nat, nat> := if ih in readers then readers[ih] else map[];
      m := m[id := 0];
      assert id in m;
      readers := readers[ih := m];
    }

    lemma NewPlayhead(readers: Readers, ih: Hash, id: nat, pos: nat)
      requires !IsReader(readers, ih, id)
      ensures Playheads(SetReader(readers, ih, id, pos), ih) == Playheads(readers, ih) + {pos}
    {
      var m := ReadersOf(readers, ih);
      var m' := m[id := pos];
      assert m'[id] in m'.Values;
      forall p | p in m.Values ensures p in m'.Values {
        var i :| i in m && m[i] == p;
        assert m'[i] == p;
      }
    }

    /** Moves a reader that is registered. */
    method NoteReaderPos(ih: Hash, id: nat, pieceIndex: nat)
      requires Valid()
      modifies this`readers
      ensures Valid()
      ensures !IsReader(old(readers), ih, id) ==> readers == old(readers)
      ensures IsReader(old(readers), ih, id) ==>
                IsReader(readers, ih, id) && readers[ih][id] == pieceIndex && OthersStay(old(readers), ih, id, readers)
      ensures IsReader(old(readers), ih, id) ==> pieceIndex in Playheads(readers, ih)
      ensures forall h | h != ih :: Playheads(readers, h) == Playheads(old(readers), h)
      ensures readers == if ih in old(readers) && id in old(readers)[ih]
                         then SetReader(old(readers), ih, id, pieceIndex) else old(readers)
    {
      if ih in readers && id in readers[ih] {
        var m: map<nat, nat> := readers[ih][id := pieceIndex];
        assert id in m && m[id] in m.Values;
        readers := readers[ih := m];
      }
    }

    /** A torrent whose last reader leaves has no entry at all. */
    method UnregisterReader(ih: Hash, id: nat)
      requires Valid()
      modifies this`readers
      ensures Valid()
      ensures !IsReader(readers, ih, id) && OthersStay(old(readers), ih, id, readers)
      ensures ih in readers ==> exists i :: IsReader(readers, ih, i)
      ensures readers == if ih !in old(readers) then old(readers)
                         else if old(readers)[ih] - {id} == map[] then old(readers) - {ih}
                         else old(readers)[ih := old(readers)[ih] - {id}]
    {
      if ih in readers {
        var m := readers[ih] - {id};
        if |m| == 0 {
          readers := readers - {ih};
        } else {
          readers := readers[ih := m];
          var i :| i in m;
          assert IsReader(readers, ih, i);
        }
      }
    }
  }
}
