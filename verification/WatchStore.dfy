/** The watch_sessions table and its writer: UpsertWatchSessions of viewer/store.go, over the
    schema of admin/migrations/0013_watch_sessions.sql. */
module WatchStore {

  datatype Tab = Tab(id: string)
  datatype Key = Key(userId: int, sessionId: Tab, videoId: int)
  datatype Meta = Meta(titleId: int, episodeId: int, resolution: string, client: string)

  /** One row to upsert. */
  datatype Row = Row(key: Key, meta: Meta, startedAt: int, lastSeen: int, seconds: int)

  /** One stored row, under its unique key. */
  datatype Stored = Stored(meta: Meta, startedAt: int, lastSeen: int, seconds: int)

  type Table = map<Key, Stored>

  const UPSERT_CHUNK := 200

  function Greatest(a: int, b: int): int {
    if a < b then b else a
  }

  /** INSERT ... ON DUPLICATE KEY UPDATE, for one row. */
  function Upsert(t: Table, r: Row): Table {
    if r.key in t
    then t[r.key := t[r.key].(lastSeen := Greatest(t[r.key].lastSeen, r.lastSeen),
                              seconds := Greatest(t[r.key].seconds, r.seconds))]
    else t[r.key := Stored(r.meta, r.startedAt, r.lastSeen, r.seconds)]
  }

  function UpsertAll(t: Table, rows: seq<Row>): Table {
    if rows == [] then t else Upsert(UpsertAll(t, rows[..|rows| - 1]), rows[|rows| - 1])
  }

  /** The rows all of whose foreign keys still exist. */
  function Attributable(rows: seq<Row>, orphans: set<Row>): seq<Row> {
    if rows == [] then []
    else Attributable(rows[..|rows| - 1], orphans) + (if rows[|rows| - 1] in orphans then [] else [rows[|rows| - 1]])
  }

  // ---------------------------------------------------------------- totals

  /** `t1` and `t2` record the same sessions with the same running totals. */
  ghost predicate SameTotals(t1: Table, t2: Table) {
    && t1.Keys == t2.Keys
    && forall k :: k in t1 ==> t1[k].lastSeen == t2[k].lastSeen && t1[k].seconds == t2[k].seconds
  }

  /** `t` holds at least the totals of `r`. */
  predicate Covers(t: Table, r: Row) {
    r.key in t && t[r.key].lastSeen >= r.lastSeen && t[r.key].seconds >= r.seconds
  }

  /** No total is more than what `before` held or some row of `rows` said. */
  ghost predicate NothingMore(before: Table, rows: set<Row>, t: Table) {
    forall k :: k in t ==>
      && ((k in before && t[k].lastSeen == before[k].lastSeen)
          || exists r :: r in rows && r.key == k && t[k].lastSeen == r.lastSeen)
      && ((k in before && t[k].seconds == before[k].seconds)
          || exists r :: r in rows && r.key == k && t[k].seconds == r.seconds)
  }

  ghost predicate Grows(before: Table, t: Table) {
    forall k :: k in before ==> k in t && t[k].lastSeen >= before[k].lastSeen && t[k].seconds >= before[k].seconds
  }

  /** A key that was there keeps all but its totals, and a new one has them from some row. */
  ghost predicate SameOrNew(before: Table, rows: set<Row>, t: Table) {
    forall k :: k in t ==>
      if k in before then t[k].meta == before[k].meta && t[k].startedAt == before[k].startedAt
      else exists r :: r in rows && r.key == k && t[k].meta == r.meta && t[k].startedAt == r.startedAt
  }

  /** What upserting leaves, without reference to order: every key's totals are the greatest of
      those it had and those the rows bring, and nothing else of it changes. */
  ghost predicate IsUpserted(before: Table, rows: set<Row>, t: Table) {
    && Grows(before, t) && (forall r :: r in rows ==> Covers(t, r)) && NothingMore(before, rows, t)
    && SameOrNew(before, rows, t)
  }

  function Elements(rows: seq<Row>): set<Row> {
    set r | r in rows
  }

  lemma {:induction false} UpsertAllIs(t: Table, rows: seq<Row>)
    ensures IsUpserted(t, Elements(rows), UpsertAll(t, rows))
  {
    if rows != [] {
      var n := |rows| - 1;
      UpsertAllIs(t, rows[..n]);
      assert rows == rows[..n] + [rows[n]];
      assert Elements(rows) == Elements(rows[..n]) + {rows[n]};
      UpsertIs(t, Elements(rows[..n]), UpsertAll(t, rows[..n]), rows[n]);
    }
  }

  lemma UpsertIs(before: Table, rows: set<Row>, t: Table, r: Row)
    requires IsUpserted(before, rows, t)
    ensures IsUpserted(before, rows + {r}, Upsert(t, r))
  {
    var u := Upsert(t, r);
    forall q | q in rows + {r} ensures Covers(u, q) { if q in rows { assert Covers(t, q); } }
    UpsertSame(before, rows, t, r);
    UpsertAddsNoMore(before, rows, t, r);
  }

  lemma UpsertAddsNoMore(before: Table, rows: set<Row>, t: Table, r: Row)
    requires NothingMore(before, rows, t) && Grows(before, t)
    ensures NothingMore(before, rows + {r}, Upsert(t, r))
  {
    var u := Upsert(t, r);
    forall k | k in u
      ensures (k in before && u[k].lastSeen == before[k].lastSeen)
              || exists q :: q in rows + {r} && q.key == k && u[k].lastSeen == q.lastSeen
      ensures (k in before && u[k].seconds == before[k].seconds)
              || exists q :: q in rows + {r} && q.key == k && u[k].seconds == q.seconds
    {
      assert r in rows + {r};
      if k in t {
        assert forall q :: q in rows ==> q in rows + {r};
      }
    }
  }

  lemma UpsertSame(before: Table, rows: set<Row>, t: Table, r: Row)
    requires SameOrNew(before, rows, t) && Grows(before, t)
    ensures SameOrNew(before, rows + {r}, Upsert(t, r))
  {
    var u := Upsert(t, r);
    forall k | k in u && k !in before
      ensures exists q :: q in rows + {r} && q.key == k && u[k].meta == q.meta && u[k].startedAt == q.startedAt
    {
      if k in t {
        var q :| q in rows && q.key == k && t[k].meta == q.meta && t[k].startedAt == q.startedAt;
        assert q in rows + {r};
      } else {
        assert r in rows + {r};
      }
    }
  }

  lemma UpsertedIsUnique(before: Table, rows: set<Row>, t1: Table, t2: Table)
    requires IsUpserted(before, rows, t1) && IsUpserted(before, rows, t2)
    ensures SameTotals(t1, t2)
  {
    forall k ensures k in t1 <==> k in t2 {}
    forall k | k in t1 ensures t1[k].lastSeen == t2[k].lastSeen && t1[k].seconds == t2[k].seconds {}
  }

  lemma {:induction false} UpsertAllAppend(t: Table, a: seq<Row>, b: seq<Row>)
    ensures UpsertAll(UpsertAll(t, a), b) == UpsertAll(t, a + b)
  {
    if b == [] {
      assert a + b == a;
    } else {
      var n := |b| - 1;
      UpsertAllAppend(t, a, b[..n]);
      assert (a + b)[..|a + b| - 1] == a + b[..n];
    }
  }

  /** Totals depend only on which rows were written: not on their order, nor on how often. */
  lemma OrderDoesNotMatter(t: Table, a: seq<Row>, b: seq<Row>)
    requires Elements(a) == Elements(b)
    ensures SameTotals(UpsertAll(t, a), UpsertAll(t, b))
  {
    UpsertAllIs(t, a);
    UpsertAllIs(t, b);
    UpsertedIsUnique(t, Elements(a), UpsertAll(t, a), UpsertAll(t, b));
  }

  /** A retry after a write that landed only in part leaves what one clean write would have. */
  lemma RetryConverges(t: Table, part: seq<Row>, rows: seq<Row>)
    requires Elements(part) <= Elements(rows)
    ensures SameTotals(UpsertAll(UpsertAll(t, part), rows), UpsertAll(t, rows))
  {
    UpsertAllAppend(t, part, rows);
    assert Elements(part + rows) == Elements(rows);
    OrderDoesNotMatter(t, part + rows, rows);
  }

  lemma ElementsAppend(a: seq<Row>, b: seq<Row>)
    ensures Elements(a + b) == Elements(a) + Elements(b)
  {
    forall r ensures r in a + b <==> r in a || r in b {}
  }

  lemma {:induction false} AttributableIs(rows: seq<Row>, orphans: set<Row>)
    ensures Elements(Attributable(rows, orphans)) == Elements(rows) - orphans
    ensures Elements(rows) !! orphans ==> Attributable(rows, orphans) == rows
  {
    if rows != [] {
      var n := |rows| - 1;
      AttributableIs(rows[..n], orphans);
      assert rows == rows[..n] + [rows[n]];
      ElementsAppend(rows[..n], [rows[n]]);
      ElementsAppend(Attributable(rows[..n], orphans), if rows[n] in orphans then [] else [rows[n]]);
    }
  }

  lemma {:induction false} AttributableAppend(a: seq<Row>, b: seq<Row>, orphans: set<Row>)
    ensures Attributable(a + b, orphans) == Attributable(a, orphans) + Attributable(b, orphans)
  {
    if b == [] {
      assert a + b == a;
    } else {
      var n := |b| - 1;
      AttributableAppend(a, b[..n], orphans);
      assert (a + b)[..|a + b| - 1] == a + b[..n];
    }
  }

  /** What a write of `rows` that reported `ok` may leave: everything attributable when it
      succeeded, and some leading part of it when it did not. */
  ghost predicate Written(t: Table, rows: seq<Row>, orphans: set<Row>, ok: bool, t': Table) {
    exists n :: 0 <= n <= |rows| && (ok ==> n == |rows|) && t' == UpsertAll(t, Attributable(rows[..n], orphans))
  }

  /** `tables` are what repeated writes of the same rows went through, all but the last failing. */
  ghost predicate IsRetried(tables: seq<Table>, rows: seq<Row>, orphans: set<Row>) {
    && |tables| >= 2
    && forall i :: 0 <= i < |tables| - 1 ==> Written(tables[i], rows, orphans, i == |tables| - 2, tables[i + 1])
  }

  /** However often a write fails part-way before it succeeds, the totals are in the end those
      of upserting each attributable row once. */
  lemma RetriesConverge(tables: seq<Table>, rows: seq<Row>, orphans: set<Row>)
    requires IsRetried(tables, rows, orphans)
    ensures SameTotals(tables[|tables| - 1], UpsertAll(tables[0], Attributable(rows, orphans)))
  {
    var n := |tables| - 1;
    var done := PartsSoFar(tables, rows, orphans, n - 1);
    assert Written(tables[n - 1], rows, orphans, n - 1 == |tables| - 2, tables[n - 1 + 1]);
    assert rows[..|rows|] == rows;
    RetryConverges(tables[0], done, Attributable(rows, orphans));
  }

  lemma {:induction false} PartsSoFar(tables: seq<Table>, rows: seq<Row>, orphans: set<Row>, i: nat)
    returns (done: seq<Row>)
    requires IsRetried(tables, rows, orphans) && i < |tables|
    ensures tables[i] == UpsertAll(tables[0], done) && Elements(done) <= Elements(Attributable(rows, orphans))
  {
    if i == 0 {
      done := [];
    } else {
      var before := PartsSoFar(tables, rows, orphans, i - 1);
      assert Written(tables[i - 1], rows, orphans, i - 1 == |tables| - 2, tables[i - 1 + 1]);
      var m :| 0 <= m <= |rows| && tables[i] == UpsertAll(tables[i - 1], Attributable(rows[..m], orphans));
      var part := Attributable(rows[..m], orphans);
      UpsertAllAppend(tables[0], before, part);
      AttributableIs(rows[..m], orphans);
      AttributableIs(rows, orphans);
      ElementsAppend(before, part);
      done := before + part;
    }
  }

  // ---------------------------------------------------------------- the writer itself

  datatype Error = NoError | ForeignKey | Other

  /** What the network does to a statement: nothing, lose the request, or lose the reply to one
      that the server has carried out. */
  datatype Fault = NoFault | LostRequest | LostReply

  class Store {
    var table: Table
    var sent: nat
    const faults: nat -> Fault
    const orphans: set<Row>

    constructor (table: Table, faults: nat -> Fault, orphans: set<Row>)
      ensures this.table == table && this.orphans == orphans && this.faults == faults && sent == 0
    {
      this.table, this.faults, this.orphans, sent := table, faults, orphans, 0;
    }

    /** One multi-row statement: all of it or none of it. */
    method UpsertChunk(chunk: seq<Row>) returns (err: Error)
      modifies this
      ensures sent == old(sent) + 1 && (err == Other ==> faults(old(sent)) != NoFault)
      ensures err == NoError ==> Elements(chunk) !! orphans && table == UpsertAll(old(table), chunk)
      ensures err == ForeignKey ==> table == old(table) && exists r :: r in chunk && r in orphans
      ensures err == Other ==>
                table == old(table) || (Elements(chunk) !! orphans && table == UpsertAll(old(table), chunk))
    {
      var fault := faults(sent);
      sent := sent + 1;
      if fault == LostRequest {
        return Other;
      }
      if exists r :: r in chunk && r in orphans {
        return if fault == NoFault then ForeignKey else Other;
      }
      var i := 0;
      while i < |chunk|
        invariant 0 <= i <= |chunk| && table == UpsertAll(old(table), chunk[..i]) && sent == old(sent) + 1
      {
        assert chunk[..i + 1][..i] == chunk[..i];
        table := Upsert(table, chunk[i]);
        i := i + 1;
      }
      assert chunk[..i] == chunk;
      err := if fault == LostReply then Other else NoError;
    }

    /** The row-by-row fallback, which skips the orphans of a chunk. */
    method UpsertEach(chunk: seq<Row>) returns (err: Error)
      modifies this
      ensures sent >= old(sent) && (err == NoError || FailedFrom(old(sent)))
      ensures Written(old(table), chunk, orphans, err == NoError, table)
    {
      var i := 0;
      while i < |chunk|
        invariant 0 <= i <= |chunk| && sent >= old(sent)
        invariant table == UpsertAll(old(table), Attributable(chunk[..i], orphans))
      {
        OneMore(old(table), chunk, i);
        ghost var before := table;
        err := UpsertSingle(chunk[i]);
        if err == Other {
          assert table == UpsertAll(old(table), Attributable(chunk[..i], orphans))
              || table == UpsertAll(old(table), Attributable(chunk[..i + 1], orphans));
          return;
        }
        i := i + 1;
      }
      assert chunk[..i] == chunk;
      err := NoError;
    }

    /** A statement of one row. */
    method UpsertSingle(r: Row) returns (err: Error)
      modifies this
      ensures sent == old(sent) + 1 && (err == Other ==> faults(old(sent)) != NoFault)
      ensures err == NoError ==> r !in orphans && table == Upsert(old(table), r)
      ensures err == ForeignKey ==> r in orphans && table == old(table)
      ensures err == Other ==> table == old(table) || (r !in orphans && table == Upsert(old(table), r))
    {
      assert Elements([r]) == {r} && [r][..0] == [];
      assert UpsertAll(table, [r]) == Upsert(table, r);
      err := UpsertChunk([r]);
    }

    lemma OneMore(t: Table, chunk: seq<Row>, i: nat)
      requires i < |chunk|
      ensures var before := UpsertAll(t, Attributable(chunk[..i], orphans));
              UpsertAll(t, Attributable(chunk[..i + 1], orphans))
              == if chunk[i] in orphans then before else Upsert(before, chunk[i])
    {
      assert chunk[..i + 1][..i] == chunk[..i];
      var a := Attributable(chunk[..i], orphans);
      if chunk[i] in orphans {
        assert a + [] == a;
      } else {
        assert (a + [chunk[i]])[..|a|] == a;
      }
    }

    /** Some statement sent from number `start` on has failed. */
    ghost predicate FailedFrom(start: nat)
      reads this
    {
      exists i: nat :: start <= i < sent && faults(i) != NoFault
    }

    /** Writes all rows, two hundred to a statement.  On success every attributable row has been
        upserted, once and in order; on failure, which takes a failing statement, a leading part of
        them has. */
    method UpsertWatchSessions(rows: seq<Row>) returns (err: Error)
      modifies this
      ensures err == NoError || FailedFrom(old(sent))
      ensures err == NoError && Elements(rows) !! orphans ==> sent == old(sent) + (|rows| + 199) / 200
      ensures Written(old(table), rows, orphans, err == NoError, table)
    {
      var rest := rows;
      ghost var done, chunks := 0, 0;
      assert rows[..0] == [];
      while |rest| > 0
        invariant 0 <= done <= |rows| && rest == rows[done..] && sent >= old(sent)
        invariant Elements(rows) !! orphans ==> sent == old(sent) + chunks
        invariant 200 * (chunks - 1) < |rows| && done == if 200 * chunks < |rows| then 200 * chunks else |rows|
        invariant table == UpsertAll(old(table), Attributable(rows[..done], orphans))
        decreases |rest|
      {
        var n := if |rest| < UPSERT_CHUNK then |rest| else UPSERT_CHUNK;
        err := UpsertPart(rest[..n], old(table), rows, done);
        if err != NoError {
          return;
        }
        rest := rest[n..];
        done, chunks := done + n, chunks + 1;
      }
      assert rows[..done] == rows;
      err := NoError;
    }

    /** The rows from number `done` on that fit into one statement. */
    method UpsertPart(chunk: seq<Row>, ghost start: Table, ghost rows: seq<Row>, ghost done: nat) returns (err: Error)
      requires done + |chunk| <= |rows| && chunk == rows[done..done + |chunk|]
      requires table == UpsertAll(start, Attributable(rows[..done], orphans))
      modifies this
      ensures sent >= old(sent) && (err == NoError || FailedFrom(old(sent)))
      ensures err == NoError && Elements(rows) !! orphans ==> sent == old(sent) + 1
      ensures err == NoError ==> table == UpsertAll(start, Attributable(rows[..done + |chunk|], orphans))
      ensures Written(start, rows, orphans, err == NoError && done + |chunk| == |rows|, table)
    {
      ghost var before := table;
      ElementsOfPart(rows, done, |chunk|);
      err := UpsertOneChunk(chunk);
      ghost var m := PartOf(start, before, rows, done, chunk, err == NoError);
    }

    lemma ElementsOfPart(rows: seq<Row>, i: nat, n: nat)
      requires i + n <= |rows|
      ensures Elements(rows[i..i + n]) <= Elements(rows)
    {}

    method UpsertOneChunk(chunk: seq<Row>) returns (err: Error)
      modifies this
      ensures sent >= old(sent) && (err == NoError || FailedFrom(old(sent)))
      ensures err == NoError && Elements(chunk) !! orphans ==> sent == old(sent) + 1
      ensures Written(old(table), chunk, orphans, err == NoError, table)
    {
      ghost var before := table;
      err := UpsertChunk(chunk);
      AttributableIs(chunk, orphans);
      assert chunk[..|chunk|] == chunk && chunk[..0] == [];
      if err == NoError {
        return;
      }
      if err != ForeignKey {
        assert || table == UpsertAll(before, Attributable(chunk[..0], orphans))
               || table == UpsertAll(before, Attributable(chunk[..|chunk|], orphans));
        return;
      }
      err := UpsertEach(chunk);
    }

    /** A part of a chunk, after everything before the chunk, is a part of the whole. */
    lemma PartOf(start: Table, before: Table, rows: seq<Row>, done: nat, chunk: seq<Row>, ok: bool) returns (n: nat)
      requires done + |chunk| <= |rows| && chunk == rows[done..done + |chunk|]
      requires before == UpsertAll(start, Attributable(rows[..done], orphans))
      requires Written(before, chunk, orphans, ok, table)
      ensures done <= n <= done + |chunk| && (ok ==> n == done + |chunk|)
      ensures table == UpsertAll(start, Attributable(rows[..n], orphans))
    {
      var m :| 0 <= m <= |chunk| && (ok ==> m == |chunk|)
               && table == UpsertAll(before, Attributable(chunk[..m], orphans));
      n := done + m;
      assert rows[..done] + chunk[..m] == rows[..n];
      AttributableAppend(rows[..done], chunk[..m], orphans);
      UpsertAllAppend(start, Attributable(rows[..done], orphans), Attributable(chunk[..m], orphans));
    }
  }
}
