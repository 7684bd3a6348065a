/** Bans: the table, the in-memory cache in front of it, and the service that writes both. */
module Bans {
  import opened Wrappers

  datatype BanReason = LoopDetected | Manual | AdminUnbanFailed

  datatype BanError = BanNotFound | DatabaseError

  /** An empty workflow type bans the client from every type; no expiry means for good. */
  datatype BanRecord = BanRecord(
    client: string, wfType: string, runEvidence: string, resultEvidence: string,
    bannedAt: int, until: Option<int>, reason: BanReason, active: bool)
  {
    predicate IsActive(now: int) {
      active && (until.None? || until.value > now)
    }

    predicate Concerns(c: string, t: string) {
      client == c && (wfType == "" || wfType == t)
    }
  }

  type Cache = map<string, set<string>>

  datatype BanState = BanState(table: seq<BanRecord>, cache: Cache)

  // ---------------------------------------------------------------- what the service computes

  /** BanManager.ApplyBan: every ban the service makes is active and permanent. */
  function ApplyBan(
      client: string, wfType: string, runID: string, evidence: string, reason: BanReason, now: int): BanRecord {
    BanRecord(client, wfType, runID, evidence, now, None, reason, true)
  }

  /** Active flags are all that changes. */
  function Cleared(rows: seq<BanRecord>, client: string, wfType: string): (r: seq<BanRecord>)
    ensures |r| == |rows| && forall i | 0 <= i < |rows| :: r[i] == rows[i].(active := r[i].active)
  {
    seq(|rows|, i requires 0 <= i < |rows| =>
      if rows[i].client == client && rows[i].wfType == wfType then rows[i].(active := false) else rows[i])
  }

  predicate HasActiveFlag(rows: seq<BanRecord>, client: string, wfType: string) {
    exists i | 0 <= i < |rows| :: rows[i].client == client && rows[i].wfType == wfType && rows[i].active
  }

  predicate Cached(cache: Cache, client: string, wfType: string) {
    wfType in cache && client in cache[wfType]
  }

  function CacheAdd(cache: Cache, ban: BanRecord, now: int): Cache {
    if !ban.IsActive(now) then cache
    else cache[ban.wfType := (if ban.wfType in cache then cache[ban.wfType] else {}) + {ban.client}]
  }

  function CacheRemove(cache: Cache, client: string, wfType: string): Cache {
    if wfType in cache then cache[wfType := cache[wfType] - {client}] else cache
  }

  function Warm(cache: Cache, rows: seq<BanRecord>, now: int): Cache {
    if rows == [] then cache
    else CacheAdd(Warm(cache, rows[..|rows| - 1], now), rows[|rows| - 1], now)
  }

  predicate ShouldBlock(cache: Cache, client: string, wfType: string) {
    Cached(cache, client, wfType) || Cached(cache, client, "")
  }

  /** The table's own answer: some unexpired active ban concerns this client and type. */
  ghost predicate TableBlocks(rows: seq<BanRecord>, client: string, wfType: string, now: int) {
    exists i | 0 <= i < |rows| :: rows[i].Concerns(client, wfType) && rows[i].IsActive(now)
  }

  /** Cache first, then the table. */
  ghost predicate Banned(st: BanState, client: string, wfType: string, now: int) {
    ShouldBlock(st.cache, client, wfType) || TableBlocks(st.table, client, wfType, now)
  }

  // ---------------------------------------------------------------- runs of the ban subsystem

  /**
   * Ban and Unban may meet a failing database; Restart starts from an empty cache and warms it;
   * Insert is a row written to the table behind the service's back. Only such a row can expire: the
   * repository stores and reads an expiry, but no code of the server ever sets one.
   */
  datatype BanOp =
    | Ban(record: BanRecord, dbFails: bool)
    | Unban(client: string, wfType: string, dbFails: bool)
    | Restart(now: int)
    | Insert(row: BanRecord)

  function Apply(st: BanState, op: BanOp): BanState {
    match op
    case Ban(b, fails) =>
      if fails then st else BanState(st.table + [b], CacheAdd(st.cache, b, b.bannedAt))
    case Unban(c, t, fails) =>
      if fails || !HasActiveFlag(st.table, c, t) then st
      else BanState(Cleared(st.table, c, t), CacheRemove(st.cache, c, t))
    case Restart(now) => st.(cache := Warm(map[], st.table, now))
    case Insert(row) => st.(table := st.table + [row])
  }

  function Run(st: BanState, ops: seq<BanOp>): BanState {
    if ops == [] then st else Apply(Run(st, ops[..|ops| - 1]), ops[|ops| - 1])
  }

  const FRESH := BanState([], map[])

  /** The bans BanClient writes: active and permanent. */
  predicate Issued(op: BanOp) {
    op.Ban? ==> op.record.until.None? && op.record.active
  }

  /** Every cached ban still has a row whose active flag is set, expired or not. */
  ghost predicate CacheIsBacked(st: BanState) {
    forall c, t | Cached(st.cache, c, t) :: HasActiveFlag(st.table, c, t)
  }

  /** The cache holds exactly the pairs with an active row, and no row expires. */
  ghost predicate CacheIsExact(st: BanState) {
    && (forall i | 0 <= i < |st.table| :: st.table[i].until.None?)
    && forall c, t :: Cached(st.cache, c, t) <==> HasActiveFlag(st.table, c, t)
  }

  lemma {:induction false} HasActiveFlagGrows(rows: seq<BanRecord>, row: BanRecord, c: string, t: string)
    ensures HasActiveFlag(rows + [row], c, t)
        <==> HasActiveFlag(rows, c, t) || (row.client == c && row.wfType == t && row.active)
  {
    var all := rows + [row];
    if HasActiveFlag(rows, c, t) {
      var i :| 0 <= i < |rows| && rows[i].client == c && rows[i].wfType == t && rows[i].active;
      assert all[i] == rows[i];
    }
    if row.client == c && row.wfType == t && row.active {
      assert all[|rows|] == row;
    }
  }

  lemma {:induction false} HasActiveFlagCleared(
      rows: seq<BanRecord>, client: string, wfType: string, c: string, t: string)
    ensures HasActiveFlag(Cleared(rows, client, wfType), c, t)
        <==> HasActiveFlag(rows, c, t) && !(c == client && t == wfType)
  {
    var out := Cleared(rows, client, wfType);
    if HasActiveFlag(rows, c, t) && !(c == client && t == wfType) {
      var i :| 0 <= i < |rows| && rows[i].client == c && rows[i].wfType == t && rows[i].active;
      assert out[i] == rows[i];
    }
  }

  /** A warmed cache holds exactly the pairs with a row active at that instant. */
  lemma {:induction false} WarmHolds(rows: seq<BanRecord>, now: int, c: string, t: string)
    ensures Cached(Warm(map[], rows, now), c, t)
       <==> exists i | 0 <= i < |rows| :: rows[i].client == c && rows[i].wfType == t && rows[i].IsActive(now)
  {
    if rows == [] {
    } else {
      var n := |rows| - 1;
      WarmHolds(rows[..n], now, c, t);
      if exists i | 0 <= i < n :: rows[i].client == c && rows[i].wfType == t && rows[i].IsActive(now) {
        var i :| 0 <= i < n && rows[i].client == c && rows[i].wfType == t && rows[i].IsActive(now);
        assert rows[..n][i] == rows[i];
      }
    }
  }

  lemma {:induction false} CacheStaysBacked(st: BanState, ops: seq<BanOp>)
    requires CacheIsBacked(st)
    ensures CacheIsBacked(Run(st, ops))
  {
    if ops == [] {
    } else {
      var op := ops[|ops| - 1];
      var mid := Run(st, ops[..|ops| - 1]);
      CacheStaysBacked(st, ops[..|ops| - 1]);
      var end := Apply(mid, op);
      forall c, t | Cached(end.cache, c, t) ensures HasActiveFlag(end.table, c, t) {
        BackedStep(mid, op, c, t);
      }
    }
  }

  lemma {:induction false} BackedStep(st: BanState, op: BanOp, c: string, t: string)
    requires CacheIsBacked(st) && Cached(Apply(st, op).cache, c, t)
    ensures HasActiveFlag(Apply(st, op).table, c, t)
  {
    match op
    case Ban(b, _) => HasActiveFlagGrows(st.table, b, c, t);
    case Unban(client, wfType, _) => HasActiveFlagCleared(st.table, client, wfType, c, t);
    case Restart(now) => WarmHolds(st.table, now, c, t);
    case Insert(row) => HasActiveFlagGrows(st.table, row, c, t);
  }

  lemma {:induction false} CacheStaysExact(st: BanState, ops: seq<BanOp>)
    requires CacheIsExact(st)
    requires forall i | 0 <= i < |ops| :: Issued(ops[i]) && !ops[i].Insert?
    ensures CacheIsExact(Run(st, ops))
  {
    if ops == [] {
    } else {
      var op := ops[|ops| - 1];
      var mid := Run(st, ops[..|ops| - 1]);
      CacheStaysExact(st, ops[..|ops| - 1]);
      ExactStep(mid, op);
    }
  }

  lemma {:induction false} ExactStep(st: BanState, op: BanOp)
    requires CacheIsExact(st) && Issued(op) && !op.Insert?
    ensures CacheIsExact(Apply(st, op))
  {
    var end := Apply(st, op);
    forall c, t ensures Cached(end.cache, c, t) <==> HasActiveFlag(end.table, c, t) {
      match op
      case Ban(b, _) => HasActiveFlagGrows(st.table, b, c, t);
      case Unban(client, wfType, _) => HasActiveFlagCleared(st.table, client, wfType, c, t);
      case Restart(now) => WarmHolds(st.table, now, c, t);
    }
  }

  /**
   * Whatever is done, failing databases, restarts and foreign rows included: no active ban is
   * ever missed, and whoever is blocked has a row that nobody has lifted.
   */
  lemma {:induction false} BansAreNeverMissed(ops: seq<BanOp>, c: string, t: string, now: int)
    ensures var st := Run(FRESH, ops);
            && (TableBlocks(st.table, c, t, now) ==> Banned(st, c, t, now))
            && (Banned(st, c, t, now) ==> HasActiveFlag(st.table, c, t) || HasActiveFlag(st.table, c, ""))
  {
    var st := Run(FRESH, ops);
    CacheStaysBacked(FRESH, ops);
    if TableBlocks(st.table, c, t, now) {
      var i :| 0 <= i < |st.table| && st.table[i].Concerns(c, t) && st.table[i].IsActive(now);
      assert st.table[i].client == c;
    }
  }

  /**
   * With the bans the service itself makes, cache and table always agree: the cache alone, the
   * table alone and the combined check give the same answer at every instant.
   */
  lemma {:induction false} CacheAgreesWithTable(ops: seq<BanOp>, c: string, t: string, now: int)
    requires forall i | 0 <= i < |ops| :: Issued(ops[i]) && !ops[i].Insert?
    ensures var st := Run(FRESH, ops);
            && (ShouldBlock(st.cache, c, t) <==> TableBlocks(st.table, c, t, now))
            && (Banned(st, c, t, now) <==> TableBlocks(st.table, c, t, now))
            && (Banned(st, c, t, now) <==> HasActiveFlag(st.table, c, t) || HasActiveFlag(st.table, c, ""))
  {
    CacheStaysExact(FRESH, ops);
    ExactAnswers(Run(FRESH, ops), c, t, now);
  }

  lemma {:induction false} ExactAnswers(st: BanState, c: string, t: string, now: int)
    requires CacheIsExact(st)
    ensures ShouldBlock(st.cache, c, t) <==> TableBlocks(st.table, c, t, now)
    ensures TableBlocks(st.table, c, t, now) <==> HasActiveFlag(st.table, c, t) || HasActiveFlag(st.table, c, "")
  {
    if TableBlocks(st.table, c, t, now) {
      var i :| 0 <= i < |st.table| && st.table[i].Concerns(c, t) && st.table[i].IsActive(now);
      assert HasActiveFlag(st.table, c, st.table[i].wfType);
    }
    forall u | (u == t || u == "") && HasActiveFlag(st.table, c, u) ensures TableBlocks(st.table, c, t, now) {
      var i :| 0 <= i < |st.table| && st.table[i].client == c && st.table[i].wfType == u && st.table[i].active;
      assert st.table[i].Concerns(c, t) && st.table[i].IsActive(now);
    }
  }

  // ---------------------------------------------------------------- expiring rows

  /** What can follow a restart without another one: bans and unbans of the service, and foreign rows. */
  predicate Ordinary(op: BanOp) {
    Issued(op) && !op.Restart?
  }

  /** The row answers for the pair as of the warm-up at w, if it was loaded then, or it never expires. */
  predicate Remembered(rows: seq<BanRecord>, loaded: nat, w: int, i: nat)
    requires i < |rows|
  {
    (i < loaded && rows[i].IsActive(w)) || (rows[i].active && rows[i].until.None?)
  }

  /** The cache is backed by remembered rows, and holds every row that was loaded and nobody lifted. */
  ghost predicate CacheIsAsOf(st: BanState, loaded: nat, w: int) {
    && loaded <= |st.table|
    && (forall c, t | Cached(st.cache, c, t) ::
          exists i: nat :: i < |st.table| && st.table[i].client == c && st.table[i].wfType == t
              && Remembered(st.table, loaded, w, i))
    && (forall i: nat | i < loaded && st.table[i].IsActive(w) ::
          Cached(st.cache, st.table[i].client, st.table[i].wfType))
  }

  lemma {:induction false} RestartIsAsOf(st: BanState, w: int)
    ensures CacheIsAsOf(Apply(st, Restart(w)), |st.table|, w)
  {
    var end := Apply(st, Restart(w));
    forall c, t | Cached(end.cache, c, t)
      ensures exists i: nat :: i < |end.table| && end.table[i].client == c && end.table[i].wfType == t
                && Remembered(end.table, |st.table|, w, i)
    {
      WarmHolds(st.table, w, c, t);
      var i :| 0 <= i < |st.table| && st.table[i].client == c && st.table[i].wfType == t && st.table[i].IsActive(w);
      assert Remembered(end.table, |st.table|, w, i);
    }
    forall i: nat | i < |st.table| && st.table[i].IsActive(w)
      ensures Cached(end.cache, st.table[i].client, st.table[i].wfType)
    {
      WarmHolds(st.table, w, st.table[i].client, st.table[i].wfType);
    }
  }

  lemma {:induction false} BackedAfter(st: BanState, op: BanOp, loaded: nat, w: int, c: string, t: string)
    requires CacheIsAsOf(st, loaded, w) && Ordinary(op) && Cached(Apply(st, op).cache, c, t)
    ensures var rows := Apply(st, op).table;
            exists i: nat :: i < |rows| && rows[i].client == c && rows[i].wfType == t && Remembered(rows, loaded, w, i)
  {
    var rows := Apply(st, op).table;
    if Cached(st.cache, c, t) {
      var i: nat :| i < |st.table| && st.table[i].client == c && st.table[i].wfType == t
          && Remembered(st.table, loaded, w, i);
      assert rows[i] == st.table[i] && Remembered(rows, loaded, w, i);
    } else {
      assert rows[|st.table|] == op.record && Remembered(rows, loaded, w, |st.table|);
    }
  }

  lemma {:induction false} StaysAsOf(st: BanState, op: BanOp, loaded: nat, w: int)
    requires CacheIsAsOf(st, loaded, w) && Ordinary(op)
    ensures CacheIsAsOf(Apply(st, op), loaded, w)
  {
    var end := Apply(st, op);
    forall c, t | Cached(end.cache, c, t)
      ensures exists i: nat :: i < |end.table| && end.table[i].client == c && end.table[i].wfType == t
                && Remembered(end.table, loaded, w, i)
    {
      BackedAfter(st, op, loaded, w, c, t);
    }
    forall i: nat | i < loaded && end.table[i].IsActive(w)
      ensures Cached(end.cache, end.table[i].client, end.table[i].wfType)
    {
      assert end.table[i] == st.table[i];
    }
  }

  lemma {:induction false} RunStaysAsOf(st: BanState, ops: seq<BanOp>, loaded: nat, w: int)
    requires CacheIsAsOf(st, loaded, w) && forall i | 0 <= i < |ops| :: Ordinary(ops[i])
    ensures CacheIsAsOf(Run(st, ops), loaded, w)
  {
    if ops == [] {
    } else {
      RunStaysAsOf(st, ops[..|ops| - 1], loaded, w);
      StaysAsOf(Run(st, ops[..|ops| - 1]), ops[|ops| - 1], loaded, w);
    }
  }

  /** The combined check answers for now, and for the warm-up instant on the rows that were loaded. */
  lemma {:induction false} AsOfAnswers(st: BanState, loaded: nat, w: int, c: string, t: string, now: int)
    requires CacheIsAsOf(st, loaded, w)
    ensures Banned(st, c, t, now) <==> TableBlocks(st.table[..loaded], c, t, w) || TableBlocks(st.table, c, t, now)
  {
    if ShouldBlock(st.cache, c, t) {
      var u := if Cached(st.cache, c, t) then t else "";
      var i: nat :| i < |st.table| && st.table[i].client == c && st.table[i].wfType == u
          && Remembered(st.table, loaded, w, i);
      assert st.table[i].Concerns(c, t);
      assert i < loaded ==> st.table[..loaded][i] == st.table[i];
    }
    if TableBlocks(st.table[..loaded], c, t, w) {
      var i :| 0 <= i < loaded && st.table[..loaded][i].Concerns(c, t) && st.table[..loaded][i].IsActive(w);
      assert Cached(st.cache, st.table[i].client, st.table[i].wfType);
    }
  }

  /**
   * For all rows and instants, expiring and foreign ones included: after any history, a restart
   * that warms the cache at w, and any bans, unbans and foreign rows since, a client is blocked if
   * and only if the table blocks it now, or a row that was loaded, and that nobody lifted, blocked
   * it at w.
   */
  lemma {:induction false} WarmedExactly(before: seq<BanOp>, w: int, since: seq<BanOp>, c: string, t: string, now: int)
    requires forall i | 0 <= i < |since| :: Ordinary(since[i])
    ensures var loaded := |Run(FRESH, before).table|;
            var st := Run(Apply(Run(FRESH, before), Restart(w)), since);
            && loaded <= |st.table|
            && (Banned(st, c, t, now) <==> TableBlocks(st.table[..loaded], c, t, w) || TableBlocks(st.table, c, t, now))
            && ((Banned(st, c, t, now) <==> TableBlocks(st.table, c, t, now))
                <==> (TableBlocks(st.table[..loaded], c, t, w) ==> TableBlocks(st.table, c, t, now)))
  {
    var start := Run(FRESH, before);
    RestartIsAsOf(start, w);
    RunStaysAsOf(Apply(start, Restart(w)), since, |start.table|, w);
    AsOfAnswers(Run(Apply(start, Restart(w)), since), |start.table|, w, c, t, now);
  }

  /** Without foreign rows since the restart, every later row is a ban of the service and never expires. */
  lemma {:induction false} LaterRowsArePermanent(st: BanState, ops: seq<BanOp>)
    requires forall i | 0 <= i < |ops| :: Ordinary(ops[i]) && !ops[i].Insert?
    ensures |st.table| <= |Run(st, ops).table|
    ensures forall i | |st.table| <= i < |Run(st, ops).table| :: Run(st, ops).table[i].until.None?
    ensures forall i | |st.table| <= i < |Run(st, ops).table| && Run(st, ops).table[i].active ::
              Cached(Run(st, ops).cache, Run(st, ops).table[i].client, Run(st, ops).table[i].wfType)
  {
    if ops == [] {
    } else {
      LaterRowsArePermanent(st, ops[..|ops| - 1]);
    }
  }

  /**
   * Without foreign rows since the restart the cache alone answers exactly as the table did at
   * the warm-up. So from then on cache, table and combined check agree if and only if whatever
   * the present table blocks as of the warm-up it still blocks now.
   */
  lemma {:induction false} CacheAnswersAsOfWarmUp(
      before: seq<BanOp>, w: int, since: seq<BanOp>, c: string, t: string, now: int)
    requires forall i | 0 <= i < |since| :: Ordinary(since[i]) && !since[i].Insert?
    ensures var st := Run(Apply(Run(FRESH, before), Restart(w)), since);
            var cache, table := ShouldBlock(st.cache, c, t), TableBlocks(st.table, c, t, now);
            var check := Banned(st, c, t, now);
            && (cache <==> TableBlocks(st.table, c, t, w))
            && (w <= now ==> ((cache <==> table) && (check <==> table) <==> (TableBlocks(st.table, c, t, w) ==> table)))
  {
    var start := Run(FRESH, before);
    var mid := Apply(start, Restart(w));
    var st := Run(mid, since);
    RestartIsAsOf(start, w);
    RunStaysAsOf(mid, since, |start.table|, w);
    LaterRowsArePermanent(mid, since);
    if TableBlocks(st.table, c, t, w) {
      var i :| 0 <= i < |st.table| && st.table[i].Concerns(c, t) && st.table[i].IsActive(w);
      assert Cached(st.cache, st.table[i].client, st.table[i].wfType);
    }
    if ShouldBlock(st.cache, c, t) {
      var u := if Cached(st.cache, c, t) then t else "";
      var i: nat :| i < |st.table| && st.table[i].client == c && st.table[i].wfType == u
          && Remembered(st.table, |start.table|, w, i);
      assert st.table[i].Concerns(c, t) && st.table[i].IsActive(w);
    }
    if w <= now && TableBlocks(st.table, c, t, now) {
      var i :| 0 <= i < |st.table| && st.table[i].Concerns(c, t) && st.table[i].IsActive(now);
      assert st.table[i].IsActive(w);
    }
  }

  lemma {:induction false} InsertAlone(row: BanRecord)
    ensures Run(FRESH, [Insert(row)]) == BanState([row], map[])
  {
    var before := [Insert(row)];
    assert before[..0] == [];
    assert Run(FRESH, before[..0]) == FRESH;
  }

  /** So every foreign row that was loaded before its expiry goes on blocking after it. */
  lemma {:induction false} ExpiredBanLingers(row: BanRecord, w: int, now: int)
    requires row.active && row.until.Some? && w < row.until.value <= now
    ensures var st := Apply(Run(FRESH, [Insert(row)]), Restart(w));
            Banned(st, row.client, row.wfType, now) && !TableBlocks(st.table, row.client, row.wfType, now)
  {
    InsertAlone(row);
    var st := Apply(Run(FRESH, [Insert(row)]), Restart(w));
    assert st.table[..1][0] == row && row.Concerns(row.client, row.wfType);
    assert Run(st, []) == st;
    WarmedExactly([Insert(row)], w, [], row.client, row.wfType, now);
  }
}
