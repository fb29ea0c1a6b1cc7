/** Which cached pieces the storage of streamer/storage_prefixcache.go calls complete, and which it
    holds.  The completion of cached pieces is kept in memory beside the cache, and dropping a
    torrent does not touch it. */
module Completion {
  import opened Seqs

  datatype Hash = Hash(hex: string)
  datatype Key = Key(ih: Hash, index: nat)

  function Elements(s: seq<Key>): set<Key> {
    set k | k in s
  }

  /** The pieces in the cache, and those said to be complete. */
  datatype Tier = Tier(cache: map<Key, int>, complete: set<Key>)

  const EMPTY := Tier(map[], {})

  /** A piece is marked complete, which evicts others if it was not held; or not complete; or its
      whole torrent is dropped. */
  datatype TierOp =
    | MarkDone(k: Key, size: int, evicted: seq<Key>)
    | MarkUndone(k: Key)
    | DropAll(ih: Hash)

  function WithoutTorrent(m: map<Key, int>, ih: Hash): map<Key, int> {
    map k | k in m && k.ih != ih :: m[k]
  }

  function TierStep(t: Tier, op: TierOp): Tier {
    match op
    case MarkDone(k, size, evicted) =>
      if k in t.cache then Tier(t.cache, t.complete + {k})
      else Tier(t.cache[k := size] - Elements(evicted), t.complete + {k} - Elements(evicted))
    case MarkUndone(k) => Tier(t.cache - {k}, t.complete - {k})
    case DropAll(ih) => Tier(WithoutTorrent(t.cache, ih), t.complete)
  }

  /** Only pieces that are held are evicted, and none but by a new one. */
  predicate CanDo(t: Tier, op: TierOp) {
    op.MarkDone? ==>
      && (op.k in t.cache ==> op.evicted == [])
      && Elements(op.evicted) <= t.cache.Keys && op.k !in op.evicted
  }

  function TierRun(t: Tier, ops: seq<TierOp>): Tier {
    if ops == [] then t else TierStep(TierRun(t, ops[..|ops| - 1]), ops[|ops| - 1])
  }

  predicate IsTierRun(t: Tier, ops: seq<TierOp>) {
    ops == [] || (IsTierRun(t, ops[..|ops| - 1]) && CanDo(TierRun(t, ops[..|ops| - 1]), ops[|ops| - 1]))
  }

  predicate Marks(op: TierOp, k: Key) {
    (op.MarkDone? || op.MarkUndone?) && op.k == k
  }

  /** At `j` the torrent of `k` was dropped while `k` was held, and `k` has not been marked since. */
  predicate DroppedAt(ops: seq<TierOp>, j: nat, k: Key) {
    && j < |ops| && ops[j] == DropAll(k.ih) && k in TierRun(EMPTY, ops[..j]).cache
    && forall x :: j < x < |ops| ==> !Marks(ops[x], k)
  }

  /** Whatever is marked, evicted and dropped, every piece held is complete, and the pieces called
      complete that are not held are exactly those that were when their torrent was dropped and
      have not been marked since. */
  lemma {:induction false} StaleExactly(ops: seq<TierOp>, k: Key)
    requires IsTierRun(EMPTY, ops)
    ensures var t := TierRun(EMPTY, ops);
            && (k in t.cache ==> k in t.complete)
            && (k in t.complete && k !in t.cache <==> exists j: nat :: DroppedAt(ops, j, k))
  {
    if ops != [] {
      var before, op := ops[..|ops| - 1], ops[|ops| - 1];
      StaleExactly(before, k);
      if Marks(op, k) {
        if j: nat :| DroppedAt(ops, j, k) { assert false; }
      } else {
        StaleGoesOn(ops, k);
      }
    }
  }

  lemma StaleGoesOn(ops: seq<TierOp>, k: Key)
    requires ops != [] && !Marks(ops[|ops| - 1], k)
    ensures var n := |ops| - 1;
            (exists j: nat :: DroppedAt(ops, j, k)) <==>
              || (exists j: nat :: DroppedAt(ops[..n], j, k))
              || (ops[n] == DropAll(k.ih) && k in TierRun(EMPTY, ops[..n]).cache)
  {
    var n := |ops| - 1;
    if j: nat :| DroppedAt(ops, j, k) {
      if j < n {
        assert ops[..n][..j] == ops[..j];
        assert DroppedAt(ops[..n], j, k);
      }
    }
    if j: nat :| DroppedAt(ops[..n], j, k) {
      assert ops[..n][..j] == ops[..j];
      forall x | j < x < |ops| ensures !Marks(ops[x], k) { if x < n { assert ops[..n][x] == ops[x]; } }
      assert DroppedAt(ops, j, k);
    }
    if ops[n] == DropAll(k.ih) && k in TierRun(EMPTY, ops[..n]).cache { assert DroppedAt(ops, n, k); }
  }

  /** Such pieces there are. */
  lemma StaleIsReachable(k: Key, size: int)
    ensures var ops := [MarkDone(k, size, []), DropAll(k.ih)];
            IsTierRun(EMPTY, ops) && k in TierRun(EMPTY, ops).complete && k !in TierRun(EMPTY, ops).cache
  {
    var ops := [MarkDone(k, size, []), DropAll(k.ih)];
    assert ops[..1] == [MarkDone(k, size, [])] && ops[..1][..0] == [];
  }

  // ---------------------------------------------------------------- the parts of an operation

  /** The completion of a piece is set and cleared without the lock that guards the cache, so these
      are the parts between which others can come. */
  datatype Part =
    | SetDone(k: Key)
    | ClearDone(k: Key)
    | Insert(k: Key, size: int, evicted: seq<Key>)
    | TakeOut(k: Key)
    | Drop(ih: Hash)

  function PartStep(t: Tier, p: Part): Tier {
    match p
    case SetDone(k) => t.(complete := t.complete + {k})
    case ClearDone(k) => t.(complete := t.complete - {k})
    case Insert(k, size, evicted) =>
      if k in t.cache then t else t.(cache := t.cache[k := size] - Elements(evicted))
    case TakeOut(k) => t.(cache := t.cache - {k})
    case Drop(ih) => t.(cache := WithoutTorrent(t.cache, ih))
  }

  predicate CanPart(t: Tier, p: Part) {
    p.Insert? ==>
      && (p.k in t.cache ==> p.evicted == [])
      && Elements(p.evicted) <= t.cache.Keys && p.k !in p.evicted
  }

  function PartRun(t: Tier, parts: seq<Part>): Tier {
    if parts == [] then t else PartStep(PartRun(t, parts[..|parts| - 1]), parts[|parts| - 1])
  }

  predicate IsPartRun(t: Tier, parts: seq<Part>) {
    parts == [] || (IsPartRun(t, parts[..|parts| - 1]) && CanPart(PartRun(t, parts[..|parts| - 1]), parts[|parts| - 1]))
  }

  function Clears(ks: seq<Key>): seq<Part> {
    if ks == [] then [] else Clears(ks[..|ks| - 1]) + [ClearDone(ks[|ks| - 1])]
  }

  function PartsOf(op: TierOp): seq<Part> {
    match op
    case MarkDone(k, size, evicted) => [SetDone(k), Insert(k, size, evicted)] + Clears(evicted)
    case MarkUndone(k) => [TakeOut(k), ClearDone(k)]
    case DropAll(ih) => [Drop(ih)]
  }

  lemma PartOneMore(t: Tier, parts: seq<Part>, p: Part)
    ensures PartRun(t, parts + [p]) == PartStep(PartRun(t, parts), p)
    ensures IsPartRun(t, parts + [p]) <==> IsPartRun(t, parts) && CanPart(PartRun(t, parts), p)
  {
    SplitLast(parts, p);
  }

  lemma PartTwoMore(t: Tier, parts: seq<Part>, p: Part, q: Part)
    ensures PartRun(t, parts + [p, q]) == PartStep(PartStep(PartRun(t, parts), p), q)
    ensures IsPartRun(t, parts + [p, q]) <==>
              IsPartRun(t, parts) && CanPart(PartRun(t, parts), p) && CanPart(PartStep(PartRun(t, parts), p), q)
  {
    PartOneMore(t, parts, p);
    PartOneMore(t, parts + [p], q);
    assert parts + [p] + [q] == parts + [p, q];
  }

  lemma {:induction false} PartsJoin(t: Tier, a: seq<Part>, b: seq<Part>)
    ensures PartRun(t, a + b) == PartRun(PartRun(t, a), b)
    ensures IsPartRun(t, a + b) <==> IsPartRun(t, a) && IsPartRun(PartRun(t, a), b)
  {
    if b == [] {
      NoneBefore(a);
    } else {
      var n := |b| - 1;
      PartsJoin(t, a, b[..n]);
      JoinLast(b);
      Assoc(a, b[..n], [b[n]]);
      PartOneMore(t, a + b[..n], b[n]);
    }
  }

  lemma {:induction false} ClearsRun(t: Tier, parts: seq<Part>, ks: seq<Key>)
    requires IsPartRun(t, parts)
    ensures IsPartRun(t, parts + Clears(ks))
    ensures var u := PartRun(t, parts);
            PartRun(t, parts + Clears(ks)) == u.(complete := u.complete - Elements(ks))
  {
    if ks == [] {
      NoneBefore(parts);
    } else {
      var n := |ks| - 1;
      ClearsRun(t, parts, ks[..n]);
      Assoc(parts, Clears(ks[..n]), [ClearDone(ks[n])]);
      PartOneMore(t, parts + Clears(ks[..n]), ClearDone(ks[n]));
      JoinLast(ks);
      ElementsMore(ks[..n], ks[n]);
    }
  }

  lemma ElementsMore(ks: seq<Key>, k: Key)
    ensures Elements(ks + [k]) == Elements(ks) + {k}
  {
    forall j ensures j in ks + [k] <==> j in ks || j == k {}
  }

  /** With nothing in between, the parts of an operation are the operation. */
  lemma PartsMakeWhole(t: Tier, op: TierOp)
    requires CanDo(t, op)
    ensures IsPartRun(t, PartsOf(op)) && PartRun(t, PartsOf(op)) == TierStep(t, op)
  {
    match op
    case MarkDone(k, size, evicted) =>
      PartTwoMore(t, [], SetDone(k), Insert(k, size, evicted));
      NoneBefore([SetDone(k), Insert(k, size, evicted)]);
      ClearsRun(t, [SetDone(k), Insert(k, size, evicted)], evicted);
    case MarkUndone(k) =>
      PartTwoMore(t, [], TakeOut(k), ClearDone(k));
      NoneBefore([TakeOut(k), ClearDone(k)]);
    case DropAll(ih) =>
      PartOneMore(t, [], Drop(ih));
      NoneBefore([Drop(ih)]);
  }

  // ---------------------------------------------------------------- clearing too late

  predicate TakesOut(p: Part, k: Key) {
    match p
    case Insert(_, _, evicted) => k in evicted
    case TakeOut(j) => j == k
    case Drop(ih) => ih == k.ih
    case _ => false
  }

  /** At `j` piece `k` came into the cache, or was found there, and nothing has taken it out since. */
  predicate HeldSince(parts: seq<Part>, j: nat, k: Key) {
    j < |parts| && parts[j].Insert? && parts[j].k == k && forall x :: j < x < |parts| ==> !TakesOut(parts[x], k)
  }

  /** At `j` piece `k` was called complete, and that has not been cleared since. */
  predicate CompleteSince(parts: seq<Part>, j: nat, k: Key) {
    j < |parts| && parts[j] == SetDone(k) && forall x :: j < x < |parts| ==> parts[x] != ClearDone(k)
  }

  lemma {:induction false} HeldIff(parts: seq<Part>, k: Key)
    requires IsPartRun(EMPTY, parts)
    ensures k in PartRun(EMPTY, parts).cache <==> exists j: nat :: HeldSince(parts, j, k)
  {
    if parts != [] {
      var n := |parts| - 1;
      var before, p := parts[..n], parts[n];
      HeldIff(before, k);
      if j: nat :| HeldSince(parts, j, k) {
        if j < n { assert HeldSince(before, j, k); }
      }
      if p.Insert? && p.k == k { assert HeldSince(parts, n, k); }
      if j: nat :| HeldSince(before, j, k) {
        if !TakesOut(p, k) {
          forall x | j < x < |parts| ensures !TakesOut(parts[x], k) { if x < n { assert before[x] == parts[x]; } }
          assert HeldSince(parts, j, k);
        }
      }
    }
  }

  lemma {:induction false} CompleteIff(parts: seq<Part>, k: Key)
    ensures k in PartRun(EMPTY, parts).complete <==> exists j: nat :: CompleteSince(parts, j, k)
  {
    if parts != [] {
      var n := |parts| - 1;
      var before, p := parts[..n], parts[n];
      CompleteIff(before, k);
      if j: nat :| CompleteSince(parts, j, k) {
        if j < n { assert CompleteSince(before, j, k); }
      }
      if p == SetDone(k) { assert CompleteSince(parts, n, k); }
      if j: nat :| CompleteSince(before, j, k) {
        if p != ClearDone(k) {
          forall x | j < x < |parts| ensures parts[x] != ClearDone(k) { if x < n { assert before[x] == parts[x]; } }
          assert CompleteSince(parts, j, k);
        }
      }
    }
  }

  /** However the parts of operations come between one another, a piece is held but not complete if
      and only if it has been inserted and not taken out since, and has not been called complete, or
      that has been cleared since. */
  lemma LateClearingIff(parts: seq<Part>, k: Key)
    requires IsPartRun(EMPTY, parts)
    ensures var t := PartRun(EMPTY, parts);
            k in t.cache && k !in t.complete <==>
              (exists j: nat :: HeldSince(parts, j, k)) && !(exists j: nat :: CompleteSince(parts, j, k))
  {
    HeldIff(parts, k);
    CompleteIff(parts, k);
  }

  /** It happens: `k` is marked complete again while its clearing, for an eviction by `g`, is late.
      This comes between the two parts of the marking. */
  lemma ClearingIsLate(k: Key, g: Key, size: int) returns (parts: seq<Part>)
    requires k != g
    ensures parts == [SetDone(k), Insert(k, size, [])] + [SetDone(g), Insert(g, size, [k])]
                     + [SetDone(k), ClearDone(k)] + [Insert(k, size, [])]
    ensures IsPartRun(EMPTY, parts) && k in PartRun(EMPTY, parts).cache && k !in PartRun(EMPTY, parts).complete
  {
    parts := [SetDone(k), Insert(k, size, [])];
    NoneBefore(parts);
    PartTwoMore(EMPTY, [], SetDone(k), Insert(k, size, []));
    PartTwoMore(EMPTY, parts, SetDone(g), Insert(g, size, [k]));
    parts := parts + [SetDone(g), Insert(g, size, [k])];
    PartTwoMore(EMPTY, parts, SetDone(k), ClearDone(k));
    parts := parts + [SetDone(k), ClearDone(k)];
    PartOneMore(EMPTY, parts, Insert(k, size, []));
    parts := parts + [Insert(k, size, [])];
  }
}
