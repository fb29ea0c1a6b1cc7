/** The in-memory watch history of viewer/watchlog.go, fed by heartbeats and flushed to the
    watch_sessions table.

    A flush takes a snapshot under the lock, writes it without the lock, and then clears what it
    wrote, so heartbeats may land between its two halves. */
module WatchLog {
  import opened Seqs
  import opened WatchStore

  const SECOND := 1_000_000_000  // times are in nanoseconds
  const MAX_BEAT_GAP := 30 * SECOND
  const IDLE_EVICT := 600 * SECOND
  const DIRTY_GIVE_UP := 3600 * SECOND
  const PREPARE_TTL := 43200 * SECOND
  const MAX_SESSION_ID := 64

  datatype PrepareKey = PrepareKey(userId: int, infoHash: Tab)
  datatype Video = NoVideo | Video(id: int)
  datatype Prepared = Prepared(videoId: int, meta: Meta, at: int)
  datatype Entry = Entry(meta: Meta, startedAt: int, lastSeen: int, seconds: int, dirty: bool)

  type Prepares = map<PrepareKey, Prepared>
  type Sessions = map<Key, Entry>

  // ---------------------------------------------------------------- what is counted

  /** The whole seconds credited for a gap between two heartbeats. */
  function Credit(gap: int): int {
    if gap > 0 then Min(gap, MAX_BEAT_GAP) / SECOND else 0
  }

  function Min(a: int, b: int): int {
    if a < b then a else b
  }

  /** The seconds credited for a series of heartbeats. */
  function Watched(beats: seq<int>): int {
    if |beats| <= 1 then 0 else Watched(beats[..|beats| - 1]) + Credit(beats[|beats| - 1] - beats[|beats| - 2])
  }

  predicate Ordered(beats: seq<int>) {
    forall i :: 0 < i < |beats| ==> beats[i - 1] <= beats[i]
  }

  /** Credited time is never more than the time that passed, nor more than thirty seconds for
      every heartbeat after the first. */
  lemma {:induction false} WatchedIsBounded(beats: seq<int>)
    requires beats != [] && Ordered(beats)
    ensures 0 <= Watched(beats) * SECOND <= beats[|beats| - 1] - beats[0]
    ensures Watched(beats) <= 30 * (|beats| - 1)
  {
    if |beats| > 1 {
      WatchedIsBounded(beats[..|beats| - 1]);
    }
  }

  lemma {:induction false} WatchedGrows(before: seq<int>, beats: seq<int>)
    requires Ordered(before + beats)
    ensures Watched(beats) <= Watched(before + beats)
  {
    if |beats| <= 1 {
      if before + beats != [] { WatchedIsBounded(before + beats); }
    } else {
      var n := |beats| - 1;
      assert (before + beats)[..|before + beats| - 1] == before + beats[..n];
      assert Ordered(before + beats[..n]) by {
        forall i | 0 < i < |before + beats[..n]| ensures (before + beats[..n])[i - 1] <= (before + beats[..n])[i] {
          assert (before + beats)[i - 1] <= (before + beats)[i];
        }
      }
      WatchedGrows(before, beats[..n]);
    }
  }

  // ---------------------------------------------------------------- specification

  /** Beside the fields of the log: the snapshot whose write is under way, the database table,
      the rows of every batch the writer has accepted, the heartbeats each entry has counted
      since it was made (`own`) and each session ever (`life`), and the latest time seen. */
  datatype State = State(prepares: Prepares, sessions: Sessions, writing: bool, rows: seq<Row>, table: Table,
                         accepted: set<Row>, own: map<Key, seq<int>>, life: map<Key, seq<int>>, now: int)

  function RowOf(k: Key, e: Entry): Row {
    Row(k, e.meta, e.startedAt, e.lastSeen, e.seconds)
  }

  function BeatsOf(m: map<Key, seq<int>>, k: Key): seq<int> {
    if k in m then m[k] else []
  }

  /** The entry of `k` after a heartbeat at `now`. */
  function AfterBeat(sessions: Sessions, k: Key, meta: Meta, now: int): Entry {
    if k in sessions then
      var e := sessions[k];
      e.(seconds := e.seconds + Credit(now - e.lastSeen), lastSeen := now, dirty := true)
    else
      Entry(meta, now, now, 0, true)
  }

  /** The heartbeat of `k` at `now`, prepared as `p`. */
  function Counted(s: State, k: Key, p: Prepared, now: int): State {
    s.(sessions := s.sessions[k := AfterBeat(s.sessions, k, p.meta, now)], now := now,
       own := s.own[k := BeatsOf(s.own, k) + [now]], life := s.life[k := BeatsOf(s.life, k) + [now]])
  }

  function Beat(s: State, userId: int, sessionId: Tab, infoHash: Tab, now: int): State {
    if userId == 0 || sessionId.id == "" || |sessionId.id| > MAX_SESSION_ID || infoHash.id == "" then s.(now := now)
    else if PrepareKey(userId, infoHash) !in s.prepares then s.(now := now)
    else
      var p := s.prepares[PrepareKey(userId, infoHash)];
      Counted(s, Key(userId, sessionId, p.videoId), p, now)
  }

  function Prepare(s: State, userId: int, infoHash: Tab, video: Video, meta: Meta, now: int): State {
    if userId == 0 || infoHash.id == "" || video == NoVideo || meta.titleId == 0 then s.(now := now)
    else s.(prepares := s.prepares[PrepareKey(userId, infoHash) := Prepared(video.id, meta, now)], now := now)
  }

  /** `rows` are the dirty entries, once each, in whatever order the map yields them. */
  ghost predicate IsSnapshot(sessions: Sessions, rows: seq<Row>) {
    && (forall r :: r in rows ==> r.key in sessions && sessions[r.key].dirty && r == RowOf(r.key, sessions[r.key]))
    && (forall k :: k in sessions && sessions[k].dirty ==> RowOf(k, sessions[k]) in rows)
    && (forall i, j :: 0 <= i < j < |rows| ==> rows[i].key != rows[j].key)
  }

  /** An entry after a write of `rows` has succeeded: clean if it was written and has not moved. */
  function Cleared(k: Key, e: Entry, rows: set<Row>): Entry {
    if exists r :: r in rows && r.key == k && r.lastSeen == e.lastSeen then e.(dirty := false) else e
  }

  /** An entry that is over: written and quiet, or refused for too long. */
  predicate Finished(e: Entry, now: int) {
    if e.dirty then now - e.lastSeen > DIRTY_GIVE_UP else now - e.lastSeen > IDLE_EVICT
  }

  function Purge(sessions: Sessions, now: int): Sessions {
    map k | k in sessions && !Finished(sessions[k], now) :: sessions[k]
  }

  function Clear(sessions: Sessions, rows: set<Row>): Sessions {
    map k | k in sessions :: Cleared(k, sessions[k], rows)
  }

  function PurgePrepares(prepares: Prepares, now: int): Prepares {
    map k | k in prepares && now - prepares[k].at <= PREPARE_TTL :: prepares[k]
  }

  /** The second half of a flush, once the write has left the table as `table`. */
  function EndFlush(s: State, ok: bool, table: Table, now: int): State {
    var sessions := Purge(if ok then Clear(s.sessions, Elements(s.rows)) else s.sessions, now);
    s.(sessions := sessions, prepares := PurgePrepares(s.prepares, now), writing := false, rows := [], table := table,
       accepted := if ok then s.accepted + Elements(s.rows) else s.accepted,
       own := map k | k in s.own && k in sessions :: s.own[k], now := now)
  }

  datatype Op =
    | DoPrepare(userId: int, infoHash: Tab, video: Video, meta: Meta, at: int)
    | DoBeat(userId: int, sessionId: Tab, hash: Tab, at: int)
    | DoSnapshot(rows: seq<Row>)
    | DoEndFlush(ok: bool, table: Table, at: int)

  /** One locked section of the log.  Flushes do not overlap, and the clock does not go back. */
  ghost predicate Next(s: State, orphans: set<Row>, op: Op, t: State) {
    match op
    case DoPrepare(userId, infoHash, video, meta, at) =>
      s.now <= at && t == Prepare(s, userId, infoHash, video, meta, at)
    case DoBeat(userId, sessionId, hash, at) =>
      s.now <= at && t == Beat(s, userId, sessionId, hash, at)
    case DoSnapshot(rows) =>
      !s.writing && IsSnapshot(s.sessions, rows) && t == s.(writing := true, rows := rows)
    case DoEndFlush(ok, table, at) =>
      s.writing && s.now <= at && Written(s.table, s.rows, orphans, ok, table) && t == EndFlush(s, ok, table, at)
  }

  const INITIAL := State(map[], map[], false, [], map[], {}, map[], map[], 0)

  // ---------------------------------------------------------------- the invariant

  predicate EndsIn(all: seq<int>, end: seq<int>) {
    |end| <= |all| && all[|all| - |end|..] == end
  }

  /** An entry is what its own heartbeats make it, and they are the session's last ones. */
  ghost predicate MadeOf(e: Entry, own: seq<int>, life: seq<int>) {
    && own != [] && e.startedAt == own[0] && e.lastSeen == own[|own| - 1] && e.seconds == Watched(own)
    && EndsIn(life, own)
  }

  /** An entry is what its own heartbeats make it, and clean only once written as it stands. */
  ghost predicate EntryOk(s: State, k: Key) {
    k in s.sessions ==>
      && k in s.own && k in s.life && MadeOf(s.sessions[k], s.own[k], s.life[k])
      && (!s.sessions[k].dirty ==> RowOf(k, s.sessions[k]) in s.accepted)
  }

  /** A row being written was its entry's snapshot, and still is unless the entry has moved. */
  ghost predicate RowOk(s: State, r: Row) {
    && r.key in s.sessions
    && var e := s.sessions[r.key];
       && r.meta == e.meta && r.startedAt == e.startedAt && r.lastSeen <= e.lastSeen && r.seconds <= e.seconds
       && (r.lastSeen == e.lastSeen ==> r.seconds == e.seconds)
  }

  /** A stored total is no more than the session's heartbeats ever earned it. */
  ghost predicate StoredOk(s: State, k: Key) {
    k in s.table ==>
      && k in s.life && s.life[k] != []
      && s.table[k].seconds <= Watched(s.life[k]) && s.table[k].lastSeen <= s.life[k][|s.life[k]| - 1]
  }

  ghost predicate LifeOk(s: State, k: Key) {
    k in s.life ==> s.life[k] != [] && Ordered(s.life[k]) && s.life[k][|s.life[k]| - 1] <= s.now
  }

  ghost predicate Inv(s: State, orphans: set<Row>) {
    && (forall k :: EntryOk(s, k))
    && (forall r :: r in s.rows ==> RowOk(s, r))
    && (forall k :: StoredOk(s, k))
    && (forall k :: LifeOk(s, k))
    && (forall r :: r in s.accepted && r !in orphans ==> Covers(s.table, r))
    && (forall k :: k in s.own ==> k in s.sessions)
  }

  lemma OneMoreBeat(beats: seq<int>, now: int)
    requires Ordered(beats) && (beats != [] ==> beats[|beats| - 1] <= now)
    ensures Ordered(beats + [now])
    ensures Watched(beats + [now]) == Watched(beats) + if beats == [] then 0 else Credit(now - beats[|beats| - 1])
    ensures Watched(beats) <= Watched(beats + [now])
  {
    OrderedMore(beats, now);
    WatchedMore(beats, now);
  }

  lemma OrderedMore(beats: seq<int>, now: int)
    requires Ordered(beats) && (beats != [] ==> beats[|beats| - 1] <= now)
    ensures Ordered(beats + [now])
  {
    var after := beats + [now];
    forall i | 0 < i < |after| ensures after[i - 1] <= after[i] {
      if i < |beats| { assert beats[i - 1] <= beats[i]; }
    }
  }

  lemma WatchedMore(beats: seq<int>, now: int)
    ensures Watched(beats + [now]) == Watched(beats) + if beats == [] then 0 else Credit(now - beats[|beats| - 1])
  {
    if beats == [] { NoneBefore([now]); } else { LastGap(beats + [now], beats, now); }
  }

  lemma LastGap(beats: seq<int>, before: seq<int>, now: int)
    requires before != [] && beats == before + [now]
    ensures Watched(beats) == Watched(before) + Credit(now - before[|before| - 1])
  {
    SplitLast(before, now);
    assert beats[..|beats| - 1] == before;
  }

  lemma EndsInOneMore(all: seq<int>, end: seq<int>, now: int)
    requires EndsIn(all, end)
    ensures EndsIn(all + [now], end + [now])
  {}

  lemma SuffixOrdered(all: seq<int>, end: seq<int>)
    requires Ordered(all) && EndsIn(all, end)
    ensures Ordered(end)
  {
    var d := |all| - |end|;
    forall i | 0 < i < |end| ensures end[i - 1] <= end[i] {
      assert end[i - 1] == all[d + i - 1] && end[i] == all[d + i] && all[d + i - 1] <= all[d + i];
    }
  }

  lemma BeatMakes(e: Entry, own: seq<int>, life: seq<int>, now: int)
    requires MadeOf(e, own, life) && Ordered(life) && life[|life| - 1] <= now
    ensures MadeOf(e.(seconds := e.seconds + Credit(now - e.lastSeen), lastSeen := now, dirty := true),
                   own + [now], life + [now])
  {
    SuffixOrdered(life, own);
    OneMoreBeat(own, now);
    EndsInOneMore(life, own, now);
  }

  lemma FirstBeatMakes(meta: Meta, life: seq<int>, now: int)
    ensures MadeOf(Entry(meta, now, now, 0, true), [] + [now], life + [now])
  {
    EndsInOneMore(life, [], now);
    assert [] + [now] == [now];
  }

  lemma BeatEntry(s: State, k: Key, p: Prepared, now: int)
    requires EntryOk(s, k) && LifeOk(s, k) && s.now <= now && (k !in s.sessions ==> k !in s.own)
    ensures EntryOk(Counted(s, k, p, now), k)
  {
    if k in s.sessions {
      BeatMakes(s.sessions[k], s.own[k], s.life[k], now);
    } else {
      FirstBeatMakes(p.meta, BeatsOf(s.life, k), now);
    }
  }

  lemma BeatLife(s: State, k: Key, p: Prepared, now: int)
    requires LifeOk(s, k) && StoredOk(s, k) && s.now <= now
    ensures LifeOk(Counted(s, k, p, now), k) && StoredOk(Counted(s, k, p, now), k)
  {
    OneMoreBeat(BeatsOf(s.life, k), now);
  }

  lemma BeatRow(s: State, k: Key, p: Prepared, now: int, r: Row)
    requires RowOk(s, r) && EntryOk(s, r.key) && LifeOk(s, r.key) && s.now <= now
    ensures RowOk(Counted(s, k, p, now), r)
  {}

  lemma BeatOther(s: State, k: Key, p: Prepared, now: int, j: Key)
    requires j != k && EntryOk(s, j) && LifeOk(s, j) && StoredOk(s, j) && s.now <= now
    ensures var t := Counted(s, k, p, now); EntryOk(t, j) && LifeOk(t, j) && StoredOk(t, j)
  {}

  lemma CountedKeeps(s: State, orphans: set<Row>, k: Key, p: Prepared, now: int)
    requires Inv(s, orphans) && s.now <= now
    ensures Inv(Counted(s, k, p, now), orphans)
  {
    var t := Counted(s, k, p, now);
    forall j ensures EntryOk(t, j) && StoredOk(t, j) && LifeOk(t, j) {
      assert EntryOk(s, j) && StoredOk(s, j) && LifeOk(s, j);
      if j == k {
        assert k in s.own ==> k in s.sessions;
        BeatEntry(s, k, p, now);
        BeatLife(s, k, p, now);
      } else {
        BeatOther(s, k, p, now, j);
      }
    }
    forall r | r in s.rows ensures RowOk(t, r) {
      assert EntryOk(s, r.key) && LifeOk(s, r.key);
      BeatRow(s, k, p, now, r);
    }
  }

  lemma SnapshotKeeps(s: State, orphans: set<Row>, rows: seq<Row>)
    requires Inv(s, orphans) && IsSnapshot(s.sessions, rows)
    ensures Inv(s.(writing := true, rows := rows), orphans)
  {
    var t := s.(writing := true, rows := rows);
    forall k ensures EntryOk(t, k) && StoredOk(t, k) && LifeOk(t, k) {
      assert EntryOk(s, k) && StoredOk(s, k) && LifeOk(s, k);
    }
  }

  lemma RowIsEarned(s: State, orphans: set<Row>, r: Row)
    requires Inv(s, orphans) && RowOk(s, r)
    ensures Earned(s, r)
  {
    var k := r.key;
    assert EntryOk(s, k) && LifeOk(s, k);
    var d := |s.life[k]| - |s.own[k]|;
    assert s.life[k] == s.life[k][..d] + s.own[k];
    WatchedGrows(s.life[k][..d], s.own[k]);
  }

  /** The session's heartbeats earned it the totals of `r`. */
  predicate Earned(s: State, r: Row) {
    && r.key in s.life && s.life[r.key] != []
    && r.seconds <= Watched(s.life[r.key]) && r.lastSeen <= s.life[r.key][|s.life[r.key]| - 1]
  }

  /** What a write leaves holds no more than before or than its rows say, and loses nothing. */
  lemma WriteKeepsTable(s: State, orphans: set<Row>, ok: bool, table: Table)
    requires Inv(s, orphans) && Written(s.table, s.rows, orphans, ok, table)
    ensures forall k :: StoredOk(s.(table := table), k)
    ensures forall r :: r in s.accepted && r !in orphans ==> Covers(table, r)
    ensures ok ==> forall r :: r in s.rows && r !in orphans ==> Covers(table, r)
  {
    var n :| 0 <= n <= |s.rows| && (ok ==> n == |s.rows|)
             && table == UpsertAll(s.table, Attributable(s.rows[..n], orphans));
    var part := Attributable(s.rows[..n], orphans);
    UpsertAllIs(s.table, part);
    AttributableIs(s.rows[..n], orphans);
    forall r | r in s.accepted && r !in orphans ensures Covers(table, r) { assert Covers(s.table, r); }
    if ok {
      assert s.rows[..n] == s.rows;
      forall r | r in s.rows && r !in orphans ensures Covers(table, r) { assert r in Elements(part); }
    }
    PartIsEarned(s, orphans, n);
    StoredIsEarned(s, Elements(part), table);
  }

  lemma PartIsEarned(s: State, orphans: set<Row>, n: nat)
    requires Inv(s, orphans) && n <= |s.rows|
    ensures forall r :: r in Elements(Attributable(s.rows[..n], orphans)) ==> Earned(s, r)
  {
    AttributableIs(s.rows[..n], orphans);
    forall r | r in Elements(Attributable(s.rows[..n], orphans)) ensures Earned(s, r) {
      assert r in s.rows && RowOk(s, r);
      RowIsEarned(s, orphans, r);
    }
  }

  lemma StoredIsEarned(s: State, rows: set<Row>, table: Table)
    requires (forall k :: StoredOk(s, k)) && (forall r :: r in rows ==> Earned(s, r))
    requires NothingMore(s.table, rows, table)
    ensures forall k :: StoredOk(s.(table := table), k)
  {
    forall k ensures StoredOk(s.(table := table), k) {
      assert StoredOk(s, k);
    }
  }

  lemma ClearedIsAccepted(s: State, orphans: set<Row>, k: Key)
    requires Inv(s, orphans) && k in s.sessions
    ensures var e := Cleared(k, s.sessions[k], Elements(s.rows));
            !e.dirty ==> RowOf(k, e) in s.accepted + Elements(s.rows)
  {
    assert EntryOk(s, k);
    if r :| r in Elements(s.rows) && r.key == k && r.lastSeen == s.sessions[k].lastSeen {
      assert RowOk(s, r);
      assert r == RowOf(k, s.sessions[k]);
    }
  }

  lemma EndFlushKeeps(s: State, orphans: set<Row>, ok: bool, table: Table, now: int)
    requires Inv(s, orphans) && s.now <= now && Written(s.table, s.rows, orphans, ok, table)
    ensures Inv(EndFlush(s, ok, table, now), orphans)
  {
    var t := EndFlush(s, ok, table, now);
    WriteKeepsTable(s, orphans, ok, table);
    forall k ensures EntryOk(t, k) && StoredOk(t, k) && LifeOk(t, k) {
      assert EntryOk(s, k) && LifeOk(s, k) && StoredOk(s.(table := table), k);
      if k in s.sessions { ClearedIsAccepted(s, orphans, k); }
      EndFlushEntry(s, ok, table, now, k);
    }
  }

  lemma EndFlushEntry(s: State, ok: bool, table: Table, now: int, k: Key)
    requires EntryOk(s, k) && LifeOk(s, k) && StoredOk(s.(table := table), k) && s.now <= now
    requires k in s.sessions ==>
               var e := Cleared(k, s.sessions[k], Elements(s.rows));
               !e.dirty ==> RowOf(k, e) in s.accepted + Elements(s.rows)
    ensures var t := EndFlush(s, ok, table, now); EntryOk(t, k) && StoredOk(t, k) && LifeOk(t, k)
  {}

  lemma NextKeeps(s: State, orphans: set<Row>, op: Op, t: State)
    requires Inv(s, orphans) && Next(s, orphans, op, t)
    ensures Inv(t, orphans)
  {
    match op
    case DoPrepare(_, _, _, _, at) => NowKeeps(s, orphans, t);
    case DoBeat(userId, sessionId, hash, at) =>
      if PrepareKey(userId, hash) in s.prepares {
        var p := s.prepares[PrepareKey(userId, hash)];
        CountedKeeps(s, orphans, Key(userId, sessionId, p.videoId), p, at);
      }
      if t == s.(now := at) { NowKeeps(s, orphans, t); }
    case DoSnapshot(rows) => SnapshotKeeps(s, orphans, rows);
    case DoEndFlush(ok, table, at) => EndFlushKeeps(s, orphans, ok, table, at);
  }

  lemma NowKeeps(s: State, orphans: set<Row>, t: State)
    requires Inv(s, orphans) && s.now <= t.now && t == s.(now := t.now, prepares := t.prepares)
    ensures Inv(t, orphans)
  {
    forall k ensures EntryOk(t, k) && StoredOk(t, k) && LifeOk(t, k) {
      assert EntryOk(s, k) && StoredOk(s, k) && LifeOk(s, k);
    }
    forall r | r in s.rows ensures RowOk(t, r) { assert RowOk(s, r); }
  }

  // ---------------------------------------------------------------- every run

  ghost predicate IsRun(states: seq<State>, ops: seq<Op>, orphans: set<Row>) {
    && |states| == |ops| + 1 && states[0] == INITIAL
    && forall i :: 0 <= i < |ops| ==> StepOk(states, ops, orphans, i)
  }

  ghost predicate StepOk(states: seq<State>, ops: seq<Op>, orphans: set<Row>, i: nat)
    requires i < |ops| < |states|
  {
    Next(states[i], orphans, ops[i], states[i + 1])
  }

  lemma {:induction false} RunKeeps(states: seq<State>, ops: seq<Op>, orphans: set<Row>, i: nat)
    requires IsRun(states, ops, orphans) && i < |states|
    ensures Inv(states[i], orphans)
  {
    if i == 0 {
      forall k ensures EntryOk(INITIAL, k) && StoredOk(INITIAL, k) && LifeOk(INITIAL, k) {}
    } else {
      RunKeeps(states, ops, orphans, i - 1);
      assert StepOk(states, ops, orphans, i - 1);
      NextKeeps(states[i - 1], orphans, ops[i - 1], states[i]);
    }
  }

  /** Whatever heartbeats land between a flush's two halves and however its writes fail: an entry
      that is clean was in an accepted batch exactly as it stands, and the table holds at least
      its totals unless it has become an orphan. */
  lemma CleanIsWritten(states: seq<State>, ops: seq<Op>, orphans: set<Row>, i: nat, k: Key)
    requires IsRun(states, ops, orphans) && i < |states| && k in states[i].sessions && !states[i].sessions[k].dirty
    ensures var r := RowOf(k, states[i].sessions[k]);
            r in states[i].accepted && (r !in orphans ==> Covers(states[i].table, r))
  {
    RunKeeps(states, ops, orphans, i);
    assert EntryOk(states[i], k);
  }

  /** An entry's seconds are never more than the time between its first and last heartbeat, nor
      than thirty for every heartbeat after the first. */
  lemma SecondsAreBounded(states: seq<State>, ops: seq<Op>, orphans: set<Row>, i: nat, k: Key)
    requires IsRun(states, ops, orphans) && i < |states| && k in states[i].sessions
    ensures k in states[i].own
    ensures var e := states[i].sessions[k];
            0 <= e.seconds * SECOND <= e.lastSeen - e.startedAt && e.seconds <= 30 * (|states[i].own[k]| - 1)
  {
    RunKeeps(states, ops, orphans, i);
    var s := states[i];
    assert EntryOk(s, k);
    assert LifeOk(s, k);
    SuffixOrdered(s.life[k], s.own[k]);
    WatchedIsBounded(s.own[k]);
  }

  /** However often a flush fails, in part or as a whole, and is retried, no session is ever
      stored with more time than its heartbeats earned it. */
  lemma NothingCountsTwice(states: seq<State>, ops: seq<Op>, orphans: set<Row>, i: nat, k: Key)
    requires IsRun(states, ops, orphans) && i < |states| && k in states[i].table
    ensures k in states[i].life && states[i].life[k] != []
    ensures var beats := states[i].life[k];
            && states[i].table[k].seconds <= Watched(beats)
            && states[i].table[k].seconds * SECOND <= beats[|beats| - 1] - beats[0]
            && states[i].table[k].seconds <= 30 * (|beats| - 1)
  {
    RunKeeps(states, ops, orphans, i);
    assert StoredOk(states[i], k) && LifeOk(states[i], k);
    WatchedIsBounded(states[i].life[k]);
  }

  // ---------------------------------------------------------------- nothing is forgotten too early

  /** A write that succeeded held the entry of `k` as it stands. */
  predicate Lands(ok: bool, rows: seq<Row>, k: Key, e: Entry) {
    ok && exists r :: r in rows && r.key == k && r.lastSeen == e.lastSeen
  }

  /** What a flush that ends at `now` makes of the entries: one that is clean, or has just been
      written as it stands, goes once its last heartbeat is more than ten minutes ago; any other goes
      once it is more than an hour ago, and stays dirty until then. */
  ghost predicate Keeps(before: Sessions, rows: seq<Row>, ok: bool, now: int, after: Sessions) {
    && after.Keys <= before.Keys
    && forall k :: k in before ==>
         var e, clean := before[k], !before[k].dirty || Lands(ok, rows, k, before[k]);
         && (k in after <==> now - e.lastSeen <= if clean then 600_000_000_000 else 3_600_000_000_000)
         && (k in after ==> after[k] == e.(dirty := !clean))
  }

  lemma FlushKeeps(s: State, ok: bool, table: Table, now: int)
    ensures Keeps(s.sessions, s.rows, ok, now, EndFlush(s, ok, table, now).sessions)
  {
    var after := EndFlush(s, ok, table, now).sessions;
    forall k | k in s.sessions
      ensures Lands(ok, s.rows, k, s.sessions[k]) ==>
                ok && Cleared(k, s.sessions[k], Elements(s.rows)) == s.sessions[k].(dirty := false)
      ensures ok && !Lands(ok, s.rows, k, s.sessions[k]) ==>
                Cleared(k, s.sessions[k], Elements(s.rows)) == s.sessions[k]
    {
      if r :| r in s.rows && r.key == k && r.lastSeen == s.sessions[k].lastSeen { assert r in Elements(s.rows); }
    }
  }

  predicate BeatsFor(s: State, op: Op, k: Key) {
    && op.DoBeat? && PrepareKey(op.userId, op.hash) in s.prepares
    && k == Key(op.userId, op.sessionId, s.prepares[PrepareKey(op.userId, op.hash)].videoId)
  }

  /** An entry leaves only at the end of a flush, and just when its last heartbeat was more than ten
      minutes before, or more than an hour if it has not been written as it stands; nothing but
      another heartbeat changes its totals, and nothing but such a write makes it clean. */
  lemma EntryLeavesIff(s: State, orphans: set<Row>, op: Op, t: State, k: Key)
    requires Inv(s, orphans) && Next(s, orphans, op, t) && k in s.sessions
    ensures k in s.own && s.own[k] != []
    ensures var e, last := s.sessions[k], s.own[k][|s.own[k]| - 1];
            var clean := !e.dirty || (op.DoEndFlush? && Lands(op.ok, s.rows, k, e));
            && (k !in t.sessions <==>
                  op.DoEndFlush? && op.at - last > if clean then 600_000_000_000 else 3_600_000_000_000)
            && (k in t.sessions && !BeatsFor(s, op, k) ==> t.sessions[k] == e.(dirty := !clean))
  {
    assert EntryOk(s, k);
    if op.DoEndFlush? { FlushKeeps(s, op.ok, op.table, op.at); }
  }

  /** The entry of `k` still has at least the totals of `r`, or the table covers them. */
  ghost predicate Carries(s: State, k: Key, r: Row) {
    Covers(s.table, r) ||
    (k in s.sessions && s.sessions[k].lastSeen >= r.lastSeen && s.sessions[k].seconds >= r.seconds)
  }

  ghost predicate NoOrphans(orphans: set<Row>, k: Key) {
    forall r: Row :: r.key == k ==> r !in orphans
  }

  lemma WriteCovers(s: State, orphans: set<Row>, ok: bool, table: Table, r: Row)
    requires Written(s.table, s.rows, orphans, ok, table) && Covers(s.table, r)
    ensures Covers(table, r)
  {
    var n :| 0 <= n <= |s.rows| && (ok ==> n == |s.rows|)
             && table == UpsertAll(s.table, Attributable(s.rows[..n], orphans));
    UpsertAllIs(s.table, Attributable(s.rows[..n], orphans));
  }

  lemma StepCarries(s: State, orphans: set<Row>, op: Op, t: State, k: Key, r: Row)
    requires Inv(s, orphans) && Next(s, orphans, op, t) && Inv(t, orphans)
    requires NoOrphans(orphans, k) && r.key == k && Carries(s, k, r)
    requires op.DoEndFlush? ==> op.at - r.lastSeen <= 3_600_000_000_000
    ensures Carries(t, k, r)
  {
    if Covers(s.table, r) {
      if op.DoEndFlush? { WriteCovers(s, orphans, op.ok, op.table, r); }
    } else {
      EntryLeavesIff(s, orphans, op, t, k);
      assert EntryOk(s, k);
      var e := s.sessions[k];
      if k !in t.sessions {
        LandedIsCovered(s, orphans, op, t, k);
      } else if BeatsFor(s, op, k) && t.sessions[k] != e {
        assert t.sessions[k].lastSeen == op.at && t.sessions[k].seconds >= e.seconds;
        assert LifeOk(s, k);
      }
    }
  }

  lemma LandedIsCovered(s: State, orphans: set<Row>, op: Op, t: State, k: Key)
    requires Inv(s, orphans) && Next(s, orphans, op, t) && op.DoEndFlush? && Inv(t, orphans)
    requires NoOrphans(orphans, k) && k in s.sessions
    requires !s.sessions[k].dirty || Lands(op.ok, s.rows, k, s.sessions[k])
    ensures Covers(t.table, RowOf(k, s.sessions[k]))
  {
    assert EntryOk(s, k);
    var row := RowOf(k, s.sessions[k]);
    if s.sessions[k].dirty {
      var r :| r in s.rows && r.key == k && r.lastSeen == s.sessions[k].lastSeen;
      assert RowOk(s, r) && r == row;
    }
    assert row in t.accepted;
  }

  lemma {:induction false} RunCarries(states: seq<State>, ops: seq<Op>, orphans: set<Row>,
                                      i: nat, n: nat, k: Key, r: Row)
    requires IsRun(states, ops, orphans) && i <= n < |states|
    requires NoOrphans(orphans, k) && r.key == k && Carries(states[i], k, r)
    requires WithinTheHour(ops, i, n, r.lastSeen)
    ensures Carries(states[n], k, r)
  {
    if i < n {
      RunCarries(states, ops, orphans, i, n - 1, k, r);
      RunKeeps(states, ops, orphans, n - 1);
      RunKeeps(states, ops, orphans, n);
      assert StepOk(states, ops, orphans, n - 1);
      assert EndsWithin(ops[n - 1], r.lastSeen);
      StepCarries(states[n - 1], orphans, ops[n - 1], states[n], k, r);
    }
  }

  predicate EndsWithin(op: Op, last: int) {
    op.DoEndFlush? ==> op.at - last <= 3_600_000_000_000
  }

  /** Every flush that ends from `i` to `n` does so within an hour of `last`. */
  predicate WithinTheHour(ops: seq<Op>, i: nat, n: nat, last: int) {
    n <= |ops| && forall x :: i <= x < n ==> EndsWithin(ops[x], last)
  }

  /** Nothing ends a flush between `n` and `m`. */
  predicate NoEndBetween(ops: seq<Op>, n: nat, m: nat) {
    m <= |ops| && forall x :: n < x < m ==> !ops[x].DoEndFlush?
  }

  lemma {:induction false} RowsWait(states: seq<State>, ops: seq<Op>, orphans: set<Row>, n: nat, m: nat)
    requires IsRun(states, ops, orphans) && n < m < |states| && ops[n].DoSnapshot? && NoEndBetween(ops, n, m)
    ensures states[m].rows == ops[n].rows && states[m].writing
  {
    if n + 1 < m { RowsWait(states, ops, orphans, n, m - 1); }
    assert StepOk(states, ops, orphans, m - 1);
  }

  /** However often flushes fail in between: what a session has at `i` is in the table after the first
      flush that succeeds, begun at `n` and ended at `m`, if the flushes that end before it begins do
      so within an hour of the session's last heartbeat. */
  lemma FailedFlushLosesNothing(states: seq<State>, ops: seq<Op>, orphans: set<Row>,
                                i: nat, n: nat, m: nat, k: Key)
    requires IsRun(states, ops, orphans) && i <= n < m < |ops| && k in states[i].sessions && NoOrphans(orphans, k)
    requires ops[n].DoSnapshot? && ops[m].DoEndFlush? && ops[m].ok && NoEndBetween(ops, n, m)
    requires WithinTheHour(ops, i, n, states[i].sessions[k].lastSeen)
    ensures Covers(states[m + 1].table, RowOf(k, states[i].sessions[k]))
  {
    var r := RowOf(k, states[i].sessions[k]);
    RunCarries(states, ops, orphans, i, n, k, r);
    RunKeeps(states, ops, orphans, n);
    if !Covers(states[n].table, r) && !states[n].sessions[k].dirty {
      CleanIsWritten(states, ops, orphans, n, k);
    }
    if Covers(states[n].table, r) {
      CoveredStays(states, ops, orphans, n, m + 1, r);
    } else {
      assert StepOk(states, ops, orphans, n) && StepOk(states, ops, orphans, m);
      RowsWait(states, ops, orphans, n, m);
      RunKeeps(states, ops, orphans, m);
      WriteKeepsTable(states[m], orphans, true, ops[m].table);
      assert RowOf(k, states[n].sessions[k]) in states[m].rows;
    }
  }

  lemma {:induction false} CoveredStays(states: seq<State>, ops: seq<Op>, orphans: set<Row>, n: nat, m: nat, r: Row)
    requires IsRun(states, ops, orphans) && n <= m < |states| && Covers(states[n].table, r)
    ensures Covers(states[m].table, r)
  {
    if n < m {
      CoveredStays(states, ops, orphans, n, m - 1, r);
      assert StepOk(states, ops, orphans, m - 1);
      var op := ops[m - 1];
      if op.DoEndFlush? { WriteCovers(states[m - 1], orphans, op.ok, op.table, r); }
    }
  }

  // ---------------------------------------------------------------- lives of a session

  /** The total of `k`'s entry at `j`, in whichever of its lives: an entry that is forgotten after a
      quiet spell starts again from nothing. */
  predicate HasTotal(states: seq<State>, j: nat, k: Key, seconds: int) {
    j < |states| && k in states[j].sessions && states[j].sessions[k].seconds == seconds
  }

  ghost predicate HadTotal(states: seq<State>, i: nat, k: Key, seconds: int) {
    exists j: nat :: j <= i && HasTotal(states, j, k, seconds)
  }

  ghost predicate OnlyTotals(states: seq<State>, i: nat)
    requires i < |states|
  {
    && (forall r :: r in states[i].rows ==> HadTotal(states, i, r.key, r.seconds))
    && (forall k :: k in states[i].table ==> HadTotal(states, i, k, states[i].table[k].seconds))
  }

  lemma HadEarlier(states: seq<State>, i: nat, k: Key, seconds: int)
    requires HadTotal(states, i, k, seconds)
    ensures HadTotal(states, i + 1, k, seconds)
  {}

  lemma {:induction false} RunHasTotals(states: seq<State>, ops: seq<Op>, orphans: set<Row>, i: nat)
    requires IsRun(states, ops, orphans) && i < |states|
    ensures OnlyTotals(states, i)
  {
    if i > 0 {
      RunHasTotals(states, ops, orphans, i - 1);
      assert StepOk(states, ops, orphans, i - 1);
      StepHasTotals(states, orphans, ops[i - 1], i - 1);
    }
  }

  lemma StepHasTotals(states: seq<State>, orphans: set<Row>, op: Op, i: nat)
    requires i + 1 < |states| && OnlyTotals(states, i) && Next(states[i], orphans, op, states[i + 1])
    ensures OnlyTotals(states, i + 1)
  {
    var s, t := states[i], states[i + 1];
    forall r | r in t.rows ensures HadTotal(states, i + 1, r.key, r.seconds) {
      if r in s.rows { HadEarlier(states, i, r.key, r.seconds); }
      else { assert HasTotal(states, i, r.key, r.seconds); }
    }
    forall k | k in t.table ensures HadTotal(states, i + 1, k, t.table[k].seconds) {
      if op.DoEndFlush? { WriteHasTotals(states, orphans, op.ok, op.table, i, k); }
      HadEarlier(states, i, k, t.table[k].seconds);
    }
  }

  lemma WriteHasTotals(states: seq<State>, orphans: set<Row>, ok: bool, table: Table, i: nat, k: Key)
    requires i < |states| && OnlyTotals(states, i)
    requires Written(states[i].table, states[i].rows, orphans, ok, table) && k in table
    ensures HadTotal(states, i, k, table[k].seconds)
  {
    var s := states[i];
    var n :| 0 <= n <= |s.rows| && (ok ==> n == |s.rows|)
             && table == UpsertAll(s.table, Attributable(s.rows[..n], orphans));
    UpsertAllIs(s.table, Attributable(s.rows[..n], orphans));
    AttributableIs(s.rows[..n], orphans);
  }

  lemma {:induction false} AcceptedStays(states: seq<State>, ops: seq<Op>, orphans: set<Row>, j: nat, i: nat)
    requires IsRun(states, ops, orphans) && j <= i < |states|
    ensures states[j].accepted <= states[i].accepted
  {
    if j < i {
      AcceptedStays(states, ops, orphans, j, i - 1);
      assert StepOk(states, ops, orphans, i - 1);
    }
  }

  /** At `j` the entry of `k` was clean, and the session's rows can be attributed. */
  predicate CleanAt(states: seq<State>, orphans: set<Row>, j: nat, k: Key) {
    && j < |states| && k in states[j].sessions && !states[j].sessions[k].dirty
    && RowOf(k, states[j].sessions[k]) !in orphans
  }

  /** What is stored of a session is a total its entry has had, and no less than any it has had
      while clean. */
  lemma StoredTotal(states: seq<State>, ops: seq<Op>, orphans: set<Row>, i: nat, k: Key)
    requires IsRun(states, ops, orphans) && i < |states|
    ensures k in states[i].table ==> HadTotal(states, i, k, states[i].table[k].seconds)
    ensures forall j: nat :: j <= i && CleanAt(states, orphans, j, k) ==>
              k in states[i].table && states[j].sessions[k].seconds <= states[i].table[k].seconds
  {
    RunHasTotals(states, ops, orphans, i);
    RunKeeps(states, ops, orphans, i);
    forall j: nat | j <= i && CleanAt(states, orphans, j, k)
      ensures k in states[i].table && states[j].sessions[k].seconds <= states[i].table[k].seconds
    {
      CleanIsWritten(states, ops, orphans, j, k);
      AcceptedStays(states, ops, orphans, j, i);
    }
  }

  /** The total that the entry of `k` had at `j` has been reached by a clean one up to `i`. */
  ghost predicate Reached(states: seq<State>, orphans: set<Row>, i: nat, k: Key, j: nat)
    requires j <= i < |states|
  {
    k in states[j].sessions ==>
      exists c: nat :: c <= i && CleanAt(states, orphans, c, k)
                       && states[j].sessions[k].seconds <= states[c].sessions[k].seconds
  }

  ghost predicate Flushed(states: seq<State>, orphans: set<Row>, i: nat, k: Key)
    requires i < |states|
  {
    forall j: nat :: j <= i ==> Reached(states, orphans, i, k, j)
  }

  /** Once each total has been reached by a clean one, the stored total is the greatest that the entry
      has had in any one of its lives. */
  lemma StoredIsGreatest(states: seq<State>, ops: seq<Op>, orphans: set<Row>, i: nat, k: Key)
    requires IsRun(states, ops, orphans) && i < |states| && k in states[i].table
    requires Flushed(states, orphans, i, k)
    ensures HadTotal(states, i, k, states[i].table[k].seconds)
    ensures forall j: nat :: j <= i && k in states[j].sessions ==>
              states[j].sessions[k].seconds <= states[i].table[k].seconds
  {
    StoredTotal(states, ops, orphans, i, k);
    forall j: nat | j <= i && k in states[j].sessions
      ensures states[j].sessions[k].seconds <= states[i].table[k].seconds
    {
      assert Reached(states, orphans, i, k, j);
    }
  }

  // ---------------------------------------------------------------- what several lives earned

  function Total(s: State, k: Key): int {
    if k in s.sessions then s.sessions[k].seconds else 0
  }

  /** What is credited to `k` from `s` to `t`. */
  function Gain(s: State, t: State, k: Key): int {
    if k in s.sessions && k in t.sessions then Total(t, k) - Total(s, k) else 0
  }

  /** All the seconds credited to `k` up to `i`, in whichever life. */
  function Credited(states: seq<State>, i: nat, k: Key): int
    requires i < |states|
  {
    if i == 0 then 0 else Credited(states, i - 1, k) + Gain(states[i - 1], states[i], k)
  }

  /** How many lives of `k`, up to `i`, have had a positive total. */
  function Lives(states: seq<State>, i: nat, k: Key): nat
    requires i < |states|
  {
    if i == 0 then 0
    else Lives(states, i - 1, k) + if Total(states[i - 1], k) == 0 < Total(states[i], k) then 1 else 0
  }

  /** The greatest total that the entry of `k` has had up to `i`. */
  function Best(states: seq<State>, i: nat, k: Key): int
    requires i < |states|
  {
    if i == 0 then 0 else Greatest(Best(states, i - 1, k), Total(states[i], k))
  }

  /** A total only grows, from nothing, until the entry is forgotten. */
  lemma TotalsGrow(s: State, orphans: set<Row>, op: Op, t: State, k: Key)
    requires Next(s, orphans, op, t) && Total(s, k) >= 0
    ensures k in t.sessions ==> Total(t, k) >= Total(s, k)
    ensures Total(t, k) >= 0 && (k in t.sessions && k !in s.sessions ==> Total(t, k) == 0)
  {}

  /** What the lives of `k` have earned, the best of them, and how many they are. */
  predicate Tally(credited: int, best: int, total: int, lives: nat) {
    && 0 <= total <= best <= credited
    && (lives == 0 ==> credited == 0)
    && (lives == 1 ==> credited == best > 0 && (total > 0 ==> total == best))
    && (lives >= 2 ==> credited > best > 0)
  }

  lemma {:induction false} LivesAdd(states: seq<State>, ops: seq<Op>, orphans: set<Row>, i: nat, k: Key)
    requires IsRun(states, ops, orphans) && i < |states|
    ensures Tally(Credited(states, i, k), Best(states, i, k), Total(states[i], k), Lives(states, i, k))
  {
    if i > 0 {
      LivesAdd(states, ops, orphans, i - 1, k);
      assert StepOk(states, ops, orphans, i - 1);
      TotalsGrow(states[i - 1], orphans, ops[i - 1], states[i], k);
    }
  }

  lemma {:induction false} BestIsTotal(states: seq<State>, i: nat, k: Key)
    requires i < |states|
    ensures Best(states, i, k) > 0 ==> HadTotal(states, i, k, Best(states, i, k))
    ensures forall j: nat :: 0 < j <= i ==> Total(states[j], k) <= Best(states, i, k)
  {
    if i > 0 {
      BestIsTotal(states, i - 1, k);
      if HadTotal(states, i - 1, k, Best(states, i, k)) { HadEarlier(states, i - 1, k, Best(states, i, k)); }
      else if Best(states, i, k) > 0 { assert HasTotal(states, i, k, Best(states, i, k)); }
    }
  }

  lemma {:induction false} GreatestIsBest(states: seq<State>, i: nat, k: Key, seconds: int)
    requires i < |states| && states[0].sessions == map[] && HadTotal(states, i, k, seconds) && seconds >= 0
    requires forall j: nat :: j <= i && k in states[j].sessions ==> states[j].sessions[k].seconds <= seconds
    ensures Best(states, i, k) >= 0 ==> seconds == Best(states, i, k)
  {
    BestIsTotal(states, i, k);
    var j: nat :| j <= i && HasTotal(states, j, k, seconds);
    assert j > 0 ==> Total(states[j], k) <= Best(states, i, k);
    if Best(states, i, k) > 0 {
      var b: nat :| b <= i && HasTotal(states, b, k, Best(states, i, k));
    }
  }

  lemma {:induction false} HadIsPositive(states: seq<State>, ops: seq<Op>, orphans: set<Row>,
                                         i: nat, k: Key, seconds: int)
    requires IsRun(states, ops, orphans) && i < |states| && HadTotal(states, i, k, seconds)
    ensures seconds >= 0
  {
    var j: nat :| j <= i && HasTotal(states, j, k, seconds);
    LivesAdd(states, ops, orphans, j, k);
  }

  /** The stored total is all that was ever credited to the session if and only if at most one of its
      lives has earned anything; otherwise it is less. */
  lemma {:induction false} StoredIsAllIff(states: seq<State>, ops: seq<Op>, orphans: set<Row>, i: nat, k: Key)
    requires IsRun(states, ops, orphans) && i < |states| && k in states[i].table
    requires Flushed(states, orphans, i, k)
    ensures states[i].table[k].seconds == Credited(states, i, k) <==> Lives(states, i, k) <= 1
    ensures states[i].table[k].seconds <= Credited(states, i, k)
  {
    StoredIsGreatest(states, ops, orphans, i, k);
    LivesAdd(states, ops, orphans, i, k);
    HadIsPositive(states, ops, orphans, i, k, states[i].table[k].seconds);
    GreatestIsBest(states, i, k, states[i].table[k].seconds);
  }

  // ---------------------------------------------------------------- a second life that is not stored

  const USER := 1
  const SESSION := Tab("s")
  const TORRENT := Tab("t")
  const META := Meta(1, 0, "", "")
  const KEY := Key(USER, SESSION, 7)

  function EntryOf(first: int, last: int, seconds: int, dirty: bool): Entry {
    Entry(META, first * SECOND, last * SECOND, seconds, dirty)
  }

  /** What matters of a state in which only `KEY` can have an entry. */
  ghost predicate Looks(s: State, e: Sessions, writing: bool, rows: seq<Row>, table: Table, now: int) {
    && s.prepares == map[PrepareKey(USER, TORRENT) := Prepared(7, META, 0)]
    && s.sessions == e && s.writing == writing && s.rows == rows && s.table == table && s.now == now * SECOND
  }

  lemma BeatFirst(s: State, table: Table, was: int, now: int) returns (t: State)
    requires Looks(s, map[], false, [], table, was) && was <= now
    ensures Next(s, {}, DoBeat(USER, SESSION, TORRENT, now * SECOND), t)
    ensures Looks(t, map[KEY := EntryOf(now, now, 0, true)], false, [], table, now)
  {
    t := Beat(s, USER, SESSION, TORRENT, now * SECOND);
  }

  lemma BeatAgain(s: State, table: Table, first: int, was: int, now: int) returns (t: State)
    requires Looks(s, map[KEY := EntryOf(first, was, 0, true)], false, [], table, was) && was <= now <= was + 30
    ensures Next(s, {}, DoBeat(USER, SESSION, TORRENT, now * SECOND), t)
    ensures Looks(t, map[KEY := EntryOf(first, now, now - was, true)], false, [], table, now)
  {
    t := Beat(s, USER, SESSION, TORRENT, now * SECOND);
  }

  lemma SnapshotOne(s: State, e: Entry, table: Table, now: int) returns (t: State)
    requires Looks(s, map[KEY := e], false, [], table, now)
    ensures var rows := if e.dirty then [RowOf(KEY, e)] else [];
            Next(s, {}, DoSnapshot(rows), t) && Looks(t, map[KEY := e], true, rows, table, now)
  {
    t := s.(writing := true, rows := if e.dirty then [RowOf(KEY, e)] else []);
  }

  /** A write of one entry that succeeds, the entry not being over yet. */
  lemma WriteOne(s: State, e: Entry, table: Table, was: int, now: int) returns (t: State, after: Table)
    requires Looks(s, map[KEY := e], true, [RowOf(KEY, e)], table, was)
    requires was <= now <= 43200 && now * SECOND - e.lastSeen <= IDLE_EVICT
    ensures after == Upsert(table, RowOf(KEY, e)) && Next(s, {}, DoEndFlush(true, after, now * SECOND), t)
    ensures Looks(t, map[KEY := e.(dirty := false)], false, [], after, now)
  {
    after := Upsert(table, RowOf(KEY, e));
    WrittenOne(table, RowOf(KEY, e));
    ClearedOne(e, now * SECOND);
    PreparesStay(now);
    t := EndFlush(s, true, after, now * SECOND);
  }

  lemma WrittenOne(table: Table, r: Row)
    ensures Written(table, [r], {}, true, Upsert(table, r))
  {
    var rows := [r];
    assert rows[..1] == rows && rows[..0] == [];
    assert Attributable(rows[..0], {}) == [] && Attributable(rows, {}) == [r];
    assert UpsertAll(table, rows[..0]) == table;
  }

  lemma ClearedOne(e: Entry, now: int)
    requires now - e.lastSeen <= IDLE_EVICT
    ensures Purge(Clear(map[KEY := e], Elements([RowOf(KEY, e)])), now) == map[KEY := e.(dirty := false)]
  {
    var rows := Elements([RowOf(KEY, e)]);
    assert RowOf(KEY, e) in rows;
    assert Cleared(KEY, e, rows) == e.(dirty := false);
    assert Clear(map[KEY := e], rows) == map[KEY := e.(dirty := false)];
  }

  lemma PreparesStay(now: int)
    requires now <= 43200
    ensures var p: Prepares := map[PrepareKey(USER, TORRENT) := Prepared(7, META, 0)];
            PurgePrepares(p, now * SECOND) == p
  {}

  /** Nothing is written, and the entry has been quiet for so long that it is forgotten. */
  lemma WriteNone(s: State, e: Entry, table: Table, was: int, now: int) returns (t: State)
    requires Looks(s, map[KEY := e], true, [], table, was) && !e.dirty
    requires was <= now <= 43200 && now * SECOND - e.lastSeen > IDLE_EVICT
    ensures Next(s, {}, DoEndFlush(true, table, now * SECOND), t) && Looks(t, map[], false, [], table, now)
  {
    var none: seq<Row> := [];
    assert none[..0] == [] && UpsertAll(table, Attributable(none, {})) == table;
    PreparesStay(now);
    t := EndFlush(s, true, table, now * SECOND);
  }
  /** The totals of the entry of `KEY` along a run of eleven operations. */
  ghost predicate Course(states: seq<State>, ops: seq<Op>) {
    && |states| == 12 && |ops| == 11 && IsRun(states, ops, {})
    && states[0].sessions == states[1].sessions == states[7].sessions == map[]
    && states[2].sessions == map[KEY := EntryOf(0, 0, 0, true)]
    && states[3].sessions == states[4].sessions == map[KEY := EntryOf(0, 30, 30, true)]
    && states[5].sessions == states[6].sessions == map[KEY := EntryOf(0, 30, 30, false)]
    && states[8].sessions == map[KEY := EntryOf(701, 701, 0, true)]
    && states[9].sessions == states[10].sessions == map[KEY := EntryOf(701, 711, 10, true)]
    && states[11].sessions == map[KEY := EntryOf(701, 711, 10, false)]
    && states[11].table == map[KEY := Stored(META, 0, 711 * SECOND, 30)]
  }

  lemma RunOneMore(states: seq<State>, ops: seq<Op>, op: Op, t: State) returns (states': seq<State>, ops': seq<Op>)
    requires IsRun(states, ops, {}) && Next(states[|ops|], {}, op, t)
    ensures IsRun(states', ops', {}) && |states'| == |states| + 1 && |ops'| == |ops| + 1 && states'[|states|] == t
    ensures forall i :: 0 <= i < |states| ==> states'[i] == states[i]
  {
    states', ops' := states + [t], ops + [op];
    forall i | 0 <= i < |ops'| ensures StepOk(states', ops', {}, i) {
      if i < |ops| { assert StepOk(states, ops, {}, i); }
    }
  }

  /** The first life: prepared, watched for thirty seconds, written, and forgotten. */
  lemma FirstLife() returns (states: seq<State>, ops: seq<Op>, table: Table)
    ensures |states| == 8 && |ops| == 7 && IsRun(states, ops, {})
    ensures states[0].sessions == states[1].sessions == map[]
    ensures states[2].sessions == map[KEY := EntryOf(0, 0, 0, true)]
    ensures states[3].sessions == states[4].sessions == map[KEY := EntryOf(0, 30, 30, true)]
    ensures states[5].sessions == states[6].sessions == map[KEY := EntryOf(0, 30, 30, false)]
    ensures Looks(states[7], map[], false, [], table, 700) && table == map[KEY := Stored(META, 0, 30 * SECOND, 30)]
  {
    var e := EntryOf(0, 30, 30, true);
    table := map[KEY := Stored(META, 0, 30 * SECOND, 30)];
    var s1 := Prepare(INITIAL, USER, TORRENT, Video(7), META, 0);
    states, ops := [INITIAL], [];
    states, ops := RunOneMore(states, ops, DoPrepare(USER, TORRENT, Video(7), META, 0), s1);
    var s2 := BeatFirst(s1, map[], 0, 0);
    states, ops := RunOneMore(states, ops, BeatAt(0), s2);
    var s3 := BeatAgain(s2, map[], 0, 0, 30);
    states, ops := RunOneMore(states, ops, BeatAt(30), s3);
    var s4 := SnapshotOne(s3, e, map[], 30);
    states, ops := RunOneMore(states, ops, DoSnapshot([RowOf(KEY, e)]), s4);
    var s5, after := WriteOne(s4, e, map[], 30, 31);
    assert after == table;
    states, ops := RunOneMore(states, ops, DoEndFlush(true, table, 31 * SECOND), s5);
    var s6 := SnapshotOne(s5, e.(dirty := false), table, 31);
    states, ops := RunOneMore(states, ops, DoSnapshot([]), s6);
    var s7 := WriteNone(s6, e.(dirty := false), table, 31, 700);
    states, ops := RunOneMore(states, ops, DoEndFlush(true, table, 700 * SECOND), s7);
  }

  lemma CourseRuns() returns (states: seq<State>, ops: seq<Op>)
    ensures Course(states, ops)
  {
    var table;
    states, ops, table := FirstLife();
    var e := EntryOf(701, 711, 10, true);
    var s8 := BeatFirst(states[7], table, 700, 701);
    states, ops := RunOneMore(states, ops, BeatAt(701), s8);
    var s9 := BeatAgain(s8, table, 701, 701, 711);
    states, ops := RunOneMore(states, ops, BeatAt(711), s9);
    var s10 := SnapshotOne(s9, e, table, 711);
    states, ops := RunOneMore(states, ops, DoSnapshot([RowOf(KEY, e)]), s10);
    var s11, after := WriteOne(s10, e, table, 711, 712);
    states, ops := RunOneMore(states, ops, DoEndFlush(true, after, 712 * SECOND), s11);
  }

  function BeatAt(now: int): Op {
    DoBeat(USER, SESSION, TORRENT, now * SECOND)
  }

  /** It can be less: a session watched for thirty seconds, forgotten after ten quiet minutes, and
      watched for ten more is stored with thirty seconds, not forty. */
  lemma SecondLifeIsLost() returns (states: seq<State>, ops: seq<Op>)
    ensures IsRun(states, ops, {}) && |states| == 12 && Flushed(states, {}, 11, KEY) && KEY in states[11].table
    ensures states[11].table[KEY].seconds == 30 && Credited(states, 11, KEY) == 40
  {
    states, ops := CourseRuns();
    CourseIsFlushed(states, ops);
    CourseCredits(states, ops);
  }

  lemma CourseIsFlushed(states: seq<State>, ops: seq<Op>)
    requires Course(states, ops)
    ensures Flushed(states, {}, 11, KEY)
  {
    assert CleanAt(states, {}, 5, KEY) && states[5].sessions[KEY].seconds == 30;
    forall j: nat | j <= 11 ensures Reached(states, {}, 11, KEY, j) {}
  }

  lemma CourseCredits(states: seq<State>, ops: seq<Op>)
    requires Course(states, ops)
    ensures Credited(states, 11, KEY) == 40
  {
    assert Credited(states, 0, KEY) == Credited(states, 1, KEY) == 0;
    assert Credited(states, 2, KEY) == 0;
    assert Credited(states, 3, KEY) == 30;
    assert Credited(states, 4, KEY) == Credited(states, 5, KEY) == 30;
    assert Credited(states, 6, KEY) == Credited(states, 7, KEY) == 30;
    assert Credited(states, 8, KEY) == 30;
    assert Credited(states, 9, KEY) == Credited(states, 10, KEY) == 40;
  }

  // ---------------------------------------------------------------- the log itself

  lemma ClearOneMore(sessions: Sessions, rows: set<Row>, r: Row)
    ensures var cleared := Clear(sessions, rows);
            Clear(sessions, rows + {r}) ==
              if r.key in cleared && cleared[r.key].lastSeen == r.lastSeen
              then cleared[r.key := cleared[r.key].(dirty := false)] else cleared
  {}

  /** A heartbeat of `k` at `now`: a new entry with nothing credited, or the whole seconds since the
      last one, thirty at most; no other entry changes. */
  ghost predicate Beaten(before: Sessions, k: Key, meta: Meta, now: int, after: Sessions) {
    && after.Keys == before.Keys + {k} && (forall j :: j in before && j != k ==> after[j] == before[j])
    && (k !in before ==> after[k] == Entry(meta, now, now, 0, true))
    && (k in before ==>
          var e, e' := before[k], after[k];
          && e' == e.(seconds := e'.seconds, lastSeen := now, dirty := true)
          && IsCredit(now - e.lastSeen, e'.seconds - e.seconds))
  }

  /** `credit` is the whole seconds of a gap, thirty at most. */
  predicate IsCredit(gap: int, credit: int) {
    if gap < 0 then credit == 0
    else if gap >= 30_000_000_000 then credit == 30
    else credit * 1_000_000_000 <= gap < (credit + 1) * 1_000_000_000
  }

  class Log {
    var prepares: Prepares
    var sessions: Sessions
    ghost var st: State
    ghost const orphans: set<Row>

    ghost predicate Valid()
      reads this
    {
      prepares == st.prepares && sessions == st.sessions && Inv(st, orphans)
    }

    constructor (ghost orphans: set<Row>)
      ensures Valid() && st == INITIAL && this.orphans == orphans
    {
      prepares, sessions, st := map[], map[], INITIAL;
      this.orphans := orphans;
      new;
      RunKeeps([INITIAL], [], orphans, 0);
    }

    method OnPrepared(userId: int, infoHash: Tab, video: Video, meta: Meta, now: int)
      requires Valid() && st.now <= now
      modifies this
      ensures Valid() && Next(old(st), orphans, DoPrepare(userId, infoHash, video, meta, now), st)
      ensures sessions == old(sessions)
      ensures prepares ==
                if userId == 0 || infoHash.id == "" || video == NoVideo || meta.titleId == 0 then old(prepares)
                else old(prepares)[PrepareKey(userId, infoHash) := Prepared(video.id, meta, now)]
    {
      ghost var s := st;
      st := Prepare(st, userId, infoHash, video, meta, now);
      NextKeeps(s, orphans, DoPrepare(userId, infoHash, video, meta, now), st);
      if userId == 0 || infoHash.id == "" || video == NoVideo || meta.titleId == 0 {
        return;
      }
      prepares := prepares[PrepareKey(userId, infoHash) := Prepared(video.id, meta, now)];
    }

    method OnBeat(userId: int, sessionId: Tab, infoHash: Tab, now: int)
      requires Valid() && st.now <= now
      modifies this
      ensures Valid() && Next(old(st), orphans, DoBeat(userId, sessionId, infoHash, now), st)
      ensures prepares == old(prepares)
      ensures var p := PrepareKey(userId, infoHash);
              if userId == 0 || infoHash.id == "" || !(1 <= |sessionId.id| <= 64) || p !in prepares
              then sessions == old(sessions)
              else Beaten(old(sessions), Key(userId, sessionId, prepares[p].videoId), prepares[p].meta, now, sessions)
    {
      if sessionId.id != "" { assert |sessionId.id| >= 1; }
      ghost var s := st;
      st := Beat(st, userId, sessionId, infoHash, now);
      NextKeeps(s, orphans, DoBeat(userId, sessionId, infoHash, now), st);
      if userId == 0 || sessionId.id == "" || |sessionId.id| > MAX_SESSION_ID || infoHash.id == "" {
        return;
      }
      if PrepareKey(userId, infoHash) !in prepares {
        return;
      }
      var p := prepares[PrepareKey(userId, infoHash)];
      CountBeat(Key(userId, sessionId, p.videoId), p.meta, now);
    }

    method CountBeat(key: Key, meta: Meta, now: int)
      modifies this`sessions
      ensures Beaten(old(sessions), key, meta, now, sessions)
      ensures sessions == old(sessions)[key := AfterBeat(old(sessions), key, meta, now)]
    {
      if key !in sessions {
        sessions := sessions[key := Entry(meta, now, now, 0, true)];
        return;
      }
      var e := sessions[key];
      var gap := now - e.lastSeen;
      if gap > 0 {
        e := e.(seconds := e.seconds + Min(gap, MAX_BEAT_GAP) / SECOND);
      }
      sessions := sessions[key := e.(lastSeen := now, dirty := true)];
    }

    /** The first half of a flush: the dirty entries, in whatever order the map yields them. */
    method FlushBegin() returns (rows: seq<Row>)
      requires Valid() && !st.writing
      modifies this`st
      ensures Valid() && Next(old(st), orphans, DoSnapshot(rows), st)
    {
      rows := [];
      var rest := sessions.Keys;
      while rest != {}
        invariant rest <= sessions.Keys
        invariant IsSnapshot(sessions - rest, rows)
      {
        var k :| k in rest;
        ghost var seen, before := sessions - rest, rows;
        rest := rest - {k};
        if sessions[k].dirty {
          rows := rows + [RowOf(k, sessions[k])];
        }
        forall j | j in sessions - rest && sessions[j].dirty ensures RowOf(j, sessions[j]) in rows {
          if j == k {
            assert rows[|before|] == RowOf(k, sessions[k]);
          } else {
            assert j in seen && RowOf(j, seen[j]) in before;
          }
        }
      }
      assert sessions - rest == sessions;
      ghost var s := st;
      st := s.(writing := true, rows := rows);
      NextKeeps(s, orphans, DoSnapshot(rows), st);
    }

    /** The second half of a flush.  `table` is what the write left of the database table. */
    method FlushEnd(rows: seq<Row>, ok: bool, now: int, ghost table: Table)
      requires Valid() && st.writing && st.rows == rows && st.now <= now
      requires Written(st.table, rows, orphans, ok, table)
      modifies this
      ensures Valid() && Next(old(st), orphans, DoEndFlush(ok, table, now), st)
      ensures Keeps(old(sessions), rows, ok, now, sessions)
      ensures forall p :: p in prepares <==> p in old(prepares) && now - old(prepares)[p].at <= 43_200_000_000_000
      ensures forall p :: p in prepares ==> prepares[p] == old(prepares)[p]
    {
      ghost var s := st;
      FlushKeeps(s, ok, table, now);
      if ok {
        ClearWritten(rows);
      }
      PurgeFinished(now);
      PurgeStale(now);
      st := EndFlush(s, ok, table, now);
      NextKeeps(s, orphans, DoEndFlush(ok, table, now), st);
    }

    method ClearWritten(rows: seq<Row>)
      modifies this`sessions
      ensures sessions == Clear(old(sessions), Elements(rows))
    {
      for i := 0 to |rows|
        invariant sessions == Clear(old(sessions), Elements(rows[..i]))
      {
        var r := rows[i];
        ClearOneMore(old(sessions), Elements(rows[..i]), r);
        assert Elements(rows[..i + 1]) == Elements(rows[..i]) + {r};
        if r.key in sessions && sessions[r.key].lastSeen == r.lastSeen {
          sessions := sessions[r.key := sessions[r.key].(dirty := false)];
        }
      }
      assert rows[..|rows|] == rows;
    }

    method PurgeFinished(now: int)
      modifies this`sessions
      ensures sessions == Purge(old(sessions), now)
    {
      var rest := sessions.Keys;
      while rest != {}
        invariant rest <= sessions.Keys
        invariant sessions == map k | k in old(sessions) && (k in rest || !Finished(old(sessions)[k], now))
                                :: old(sessions)[k]
      {
        var k :| k in rest;
        rest := rest - {k};
        var e := sessions[k];
        var idle := now - e.lastSeen;
        if !e.dirty && idle > IDLE_EVICT {
          sessions := sessions - {k};
        } else if e.dirty && idle > DIRTY_GIVE_UP {
          sessions := sessions - {k};
        }
      }
    }

    method PurgeStale(now: int)
      modifies this`prepares
      ensures prepares == PurgePrepares(old(prepares), now)
    {
      var rest := prepares.Keys;
      while rest != {}
        invariant rest <= prepares.Keys
        invariant prepares == map k | k in old(prepares)
                                      && (k in rest || now - old(prepares)[k].at <= PREPARE_TTL) :: old(prepares)[k]
      {
        var k :| k in rest;
        rest := rest - {k};
        if now - prepares[k].at > PREPARE_TTL {
          prepares := prepares - {k};
        }
      }
    }

    /** A whole flush with nothing in between.  With no rows to write, nothing is sent. */
    method Flush(store: Store, now: int) returns (err: Error)
      requires Valid() && !st.writing && st.now <= now && store.table == st.table && store.orphans == orphans
      modifies this, store
      ensures Valid() && !st.writing && store.table == st.table
      ensures err == NoError ==> forall k :: k in sessions ==> !sessions[k].dirty
    {
      var rows := FlushBegin();
      ghost var before := sessions;
      err := NoError;
      if |rows| > 0 {
        err := store.UpsertWatchSessions(rows);
      } else {
        assert rows[..0] == [];
      }
      assert Written(st.table, rows, orphans, err == NoError, store.table);
      FlushEnd(rows, err == NoError, now, store.table);
      if err == NoError {
        forall k | k in sessions ensures !sessions[k].dirty {
          if before[k].dirty { assert RowOf(k, before[k]) in Elements(rows); }
        }
      }
    }
  }
}
