/** Incremental liquidity history: chunks of the transaction log folded into one row per
    height and pair (lpHistoryTask of aggregator/task.go, GetParsedTxsWithLimit of
    pkg/db/parser/repository.go). */
module LpHistory {
  import opened Options

  /** A parsed transaction; `None` when no pair is known for its contract. */
  datatype Parsed = Parsed(height: nat, pairId: Option<nat>, timestamp: int, amount0: int, amount1: int)

  /** A parsed transaction joined with its pair; `amount0` and `amount1` are its signed asset amounts. */
  datatype Tx = Tx(height: nat, pairId: nat, timestamp: int, amount0: int, amount1: int)

  datatype Row = Row(height: nat, pairId: nat, timestamp: int, liquidity0: int, liquidity1: int)

  type Log = seq<Tx>

  predicate Before(h: nat, p: nat, k: nat, q: nat) {
    h < k || (h == k && p < q)
  }

  /** Positive heights, ordered by height and then pair, as the query returns them. */
  ghost predicate Ordered(log: Log) {
    && (forall t :: t in log ==> t.height > 0)
    && (forall i, j :: 0 <= i < j < |log| ==> InOrder(log, i, j))
  }

  predicate InOrder(log: Log, i: nat, j: nat)
    requires i < j < |log|
  {
    !Before(log[j].height, log[j].pairId, log[i].height, log[i].pairId)
  }

  function Sum0(log: Log, p: nat): int {
    if log == [] then 0 else
      Sum0(log[..|log| - 1], p) + if log[|log| - 1].pairId == p then log[|log| - 1].amount0 else 0
  }

  function Sum1(log: Log, p: nat): int {
    if log == [] then 0 else
      Sum1(log[..|log| - 1], p) + if log[|log| - 1].pairId == p then log[|log| - 1].amount1 else 0
  }

  predicate SameGroup(a: Tx, b: Tx) {
    a.height == b.height && a.pairId == b.pairId
  }

  /** The row of the group that the last entry of the log belongs to. */
  function LastRow(log: Log): Row
    requires log != []
  {
    var t := log[|log| - 1];
    Row(t.height, t.pairId, GroupStart(log), Sum0(log, t.pairId), Sum1(log, t.pairId))
  }

  /** The timestamp of the first entry of the last group. */
  function GroupStart(log: Log): int
    requires log != []
  {
    var n := |log| - 1;
    if n > 0 && SameGroup(log[n - 1], log[n]) then GroupStart(log[..n]) else log[n].timestamp
  }

  /** The history of a log in one pass: each entry opens a row or updates the last one. */
  function History(log: Log): (rows: seq<Row>)
    ensures log != [] ==> rows != [] && rows[|rows| - 1] == LastRow(log)
  {
    if log == [] then [] else Closed(log) + [LastRow(log)]
  }

  /** The rows before the last group. */
  function Closed(log: Log): seq<Row>
    requires log != []
  {
    var n := |log| - 1;
    if n == 0 then []
    else if SameGroup(log[n - 1], log[n]) then Closed(log[..n])
    else Closed(log[..n]) + [LastRow(log[..n])]
  }

  // ---- what a history says ----

  function Through(log: Log, h: nat): Log {
    if log == [] then [] else Through(log[..|log| - 1], h) + if log[|log| - 1].height <= h then [log[|log| - 1]] else []
  }

  ghost predicate RowOf(log: Log, r: Row) {
    && (exists t :: t in log && t.height == r.height && t.pairId == r.pairId)
    && r.liquidity0 == Sum0(Through(log, r.height), r.pairId)
    && r.liquidity1 == Sum1(Through(log, r.height), r.pairId)
  }

  ghost predicate HasRow(rows: seq<Row>, h: nat, p: nat) {
    exists r :: r in rows && r.height == h && r.pairId == p
  }

  ghost predicate RowsIncrease(rows: seq<Row>) {
    forall i, j :: 0 <= i < j < |rows| ==> Before(rows[i].height, rows[i].pairId, rows[j].height, rows[j].pairId)
  }

  lemma {:induction false} ThroughAll(log: Log, h: nat)
    requires forall t :: t in log ==> t.height <= h
    ensures Through(log, h) == log
  {
    if log != [] {
      var n := |log| - 1;
      assert log == log[..n] + [log[n]] && log[n] in log;
      ThroughAll(log[..n], h);
    }
  }

  lemma OrderedPrefix(log: Log, n: nat)
    requires Ordered(log) && n <= |log|
    ensures Ordered(log[..n])
  {
    forall i, j | 0 <= i < j < n ensures InOrder(log[..n], i, j) { assert InOrder(log, i, j); }
  }

  lemma LastRowIsRow(log: Log)
    requires Ordered(log) && log != []
    ensures RowOf(log, LastRow(log))
  {
    var n := |log| - 1;
    assert log[n] in log;
    forall t | t in log ensures t.height <= log[n].height {
      var i :| 0 <= i < |log| && log[i] == t;
      if i < n { assert InOrder(log, i, n); }
    }
    ThroughAll(log, log[n].height);
  }

  /** A row of an earlier group is not touched by a later entry. */
  lemma RowStays(log: Log, r: Row)
    requires Ordered(log) && log != [] && RowOf(log[..|log| - 1], r)
    requires Before(r.height, r.pairId, log[|log| - 1].height, log[|log| - 1].pairId)
    ensures RowOf(log, r)
  {
    var n := |log| - 1;
    var t :| t in log[..n] && t.height == r.height && t.pairId == r.pairId;
    assert t in log;
    var was, now := Through(log[..n], r.height), Through(log, r.height);
    if log[n].height <= r.height {
      assert now == was + [log[n]] && now[..|now| - 1] == was;
    } else {
      assert now == was + [] == was;
    }
  }

  ghost predicate EarlierRows(log: Log, rows: seq<Row>, h: nat, p: nat) {
    forall r :: r in rows ==> RowOf(log, r) && Before(r.height, r.pairId, h, p)
  }

  lemma {:induction false} ClosedRows(log: Log)
    requires Ordered(log) && log != []
    ensures EarlierRows(log, Closed(log), log[|log| - 1].height, log[|log| - 1].pairId) && RowsIncrease(Closed(log))
  {
    var n := |log| - 1;
    var t := log[n];
    if n > 0 {
      var was, u := log[..n], log[n - 1];
      OrderedPrefix(log, n);
      ClosedRows(was);
      LastRowIsRow(was);
      assert was[n - 1] == u && InOrder(log, n - 1, n);
      forall r | r in Closed(log) ensures RowOf(log, r) && Before(r.height, r.pairId, t.height, t.pairId) {
        assert r in Closed(was) || (r == LastRow(was) && !SameGroup(u, t));
        RowStays(log, r);
      }
    }
  }

  lemma {:induction false} ClosedIsComplete(log: Log, u: Tx)
    requires Ordered(log) && log != [] && u in log && !SameGroup(u, log[|log| - 1])
    ensures HasRow(Closed(log), u.height, u.pairId)
  {
    var n := |log| - 1;
    assert log == log[..n] + [log[n]];
    if n > 0 {
      var was := log[..n];
      OrderedPrefix(log, n);
      if SameGroup(u, was[n - 1]) {
        assert LastRow(was) in Closed(log);
      } else {
        ClosedIsComplete(was, u);
        var r :| r in Closed(was) && r.height == u.height && r.pairId == u.pairId;
        assert r in Closed(log);
      }
    }
  }

  /** The history of an ordered log has exactly one row for each height and pair that
      occur, in order, with the pair's amounts summed through that height. */
  lemma HistoryIsExact(log: Log)
    requires Ordered(log)
    ensures RowsIncrease(History(log))
    ensures forall r :: r in History(log) ==> RowOf(log, r)
    ensures forall t :: t in log ==> HasRow(History(log), t.height, t.pairId)
  {
    if log != [] {
      ClosedRows(log);
      LastRowIsRow(log);
      assert LastRow(log) in History(log);
      forall t | t in log ensures HasRow(History(log), t.height, t.pairId) {
        if !SameGroup(t, log[|log| - 1]) {
          ClosedIsComplete(log, t);
          var r :| r in Closed(log) && r.height == t.height && r.pairId == t.pairId;
          assert r in History(log);
        }
      }
    }
  }

  // ---- the code ----

  function LpOf(lp: map<nat, (int, int)>, p: nat): (int, int) {
    if p in lp then lp[p] else (0, 0)
  }

  ghost predicate Matches(lp: map<nat, (int, int)>, log: Log) {
    forall p: nat :: LpOf(lp, p) == (Sum0(log, p), Sum1(log, p))
  }

  /** What one more entry does to the one-pass history. */
  lemma {:induction false} Append(log: Log, t: Tx)
    ensures forall p :: Sum0(log + [t], p) == Sum0(log, p) + if t.pairId == p then t.amount0 else 0
    ensures forall p :: Sum1(log + [t], p) == Sum1(log, p) + if t.pairId == p then t.amount1 else 0
    ensures log != [] && SameGroup(log[|log| - 1], t) ==>
              Closed(log + [t]) == Closed(log) && GroupStart(log + [t]) == GroupStart(log)
    ensures !(log != [] && SameGroup(log[|log| - 1], t)) ==>
              Closed(log + [t]) == History(log) && GroupStart(log + [t]) == t.timestamp
  {
    var now := log + [t];
    assert now[..|now| - 1] == log && now[|now| - 1] == t;
    assert |now| > 1 ==> now[|now| - 2] == log[|log| - 1];
  }

  /** The balances of the pairs met so far, on top of those from before the chunk. */
  ghost predicate Running(lps: map<nat, (int, int)>, latest: map<nat, (int, int)>, log: Log) {
    forall p: nat :: (if p in lps then lps[p] else LpOf(latest, p)) == (Sum0(log, p), Sum1(log, p))
  }

  function WithLp(r: Row, lp: (int, int)): Row {
    r.(liquidity0 := lp.0, liquidity1 := lp.1)
  }

  /** The variables of the loop. */
  datatype Fold = Fold(history: seq<Row>, lps: map<nat, (int, int)>, curr: Row)

  /** The body of the loop: a new height or pair closes the current row. */
  function Take(f: Fold, latest: map<nat, (int, int)>, tx: Tx): Fold {
    var turn := f.curr.height != tx.height || f.curr.pairId != tx.pairId;
    var lp := if tx.pairId in f.lps then f.lps[tx.pairId] else LpOf(latest, tx.pairId);
    Fold(if turn && f.curr.height > 0 then f.history + [WithLp(f.curr, LpOf(f.lps, f.curr.pairId))] else f.history,
         f.lps[tx.pairId := (lp.0 + tx.amount0, lp.1 + tx.amount1)],
         if turn then Row(tx.height, tx.pairId, tx.timestamp, 0, 0) else f.curr)
  }

  /** The loop after at least one entry: the current row is the last group, still open. */
  ghost predicate Folded(f: Fold, latest: map<nat, (int, int)>, done: Log, log: Log) {
    && log != [] && Running(f.lps, latest, log)
    && f.curr == Row(log[|log| - 1].height, log[|log| - 1].pairId, GroupStart(log), 0, 0)
    && f.curr.pairId in f.lps
    && History(done) + f.history == Closed(log)
  }

  lemma TakeRunning(f: Fold, latest: map<nat, (int, int)>, log: Log, tx: Tx)
    requires Running(f.lps, latest, log)
    ensures Running(Take(f, latest, tx).lps, latest, log + [tx])
  {
    Append(log, tx);
  }

  lemma TakeFirst(latest: map<nat, (int, int)>, done: Log, tx: Tx)
    requires Matches(latest, done) && tx.height > 0 && (done != [] ==> done[|done| - 1].height != tx.height)
    ensures Folded(Take(Fold([], map[], Row(0, 0, 0, 0, 0)), latest, tx), latest, done, done + [tx])
  {
    Append(done, tx);
    TakeRunning(Fold([], map[], Row(0, 0, 0, 0, 0)), latest, done, tx);
  }

  lemma TakeNext(f: Fold, latest: map<nat, (int, int)>, done: Log, log: Log, tx: Tx)
    requires Folded(f, latest, done, log) && f.curr.height > 0
    ensures Folded(Take(f, latest, tx), latest, done, log + [tx])
  {
    Append(log, tx);
    TakeRunning(f, latest, log, tx);
    assert LpOf(f.lps, f.curr.pairId) == (Sum0(log, f.curr.pairId), Sum1(log, f.curr.pairId));
    assert LastRow(log) == WithLp(f.curr, LpOf(f.lps, f.curr.pairId));
    assert History(done) + (f.history + [LastRow(log)]) == Closed(log) + [LastRow(log)];
  }

  lemma OneTxMore(done: Log, txs: Log, k: nat)
    requires k < |txs|
    ensures done + txs[..k + 1] == done + txs[..k] + [txs[k]]
  {
  }

  /** Folds a chunk of the log.  `latest` holds the balances before it and `next` those after it. */
  method GenerateHistory(latest: map<nat, (int, int)>, txs: Log, ghost done: Log)
    returns (history: seq<Row>, next: map<nat, (int, int)>)
    requires txs != [] && (forall t :: t in txs ==> t.height > 0) && Matches(latest, done)
    requires done != [] ==> done[|done| - 1].height != txs[0].height
    ensures Matches(next, done + txs)
    ensures History(done) + history == History(done + txs)
    ensures history != [] && history[|history| - 1].height == txs[|txs| - 1].height
  {
    var f := Fold([], map[], Row(0, 0, 0, 0, 0));
    ghost var log := done;
    assert done + txs[..0] == done;
    for k := 0 to |txs|
      invariant log == done + txs[..k]
      invariant k == 0 ==> f == Fold([], map[], Row(0, 0, 0, 0, 0))
      invariant k > 0 ==> Folded(f, latest, done, log) && f.curr.height == txs[k - 1].height
    {
      if k == 0 { TakeFirst(latest, done, txs[k]); } else { TakeNext(f, latest, done, log, txs[k]); }
      f := Take(f, latest, txs[k]);
      log := log + [txs[k]];
      OneTxMore(done, txs, k);
    }
    assert txs[..|txs|] == txs;
    CloseLast(f, latest, done, log);
    history := f.history + [WithLp(f.curr, LpOf(f.lps, f.curr.pairId))];
    next := latest + f.lps;
  }

  lemma CloseLast(f: Fold, latest: map<nat, (int, int)>, done: Log, log: Log)
    requires Folded(f, latest, done, log)
    ensures History(done) + (f.history + [WithLp(f.curr, LpOf(f.lps, f.curr.pairId))]) == History(log)
    ensures Matches(latest + f.lps, log)
  {
    assert LpOf(f.lps, f.curr.pairId) == (Sum0(log, f.curr.pairId), Sum1(log, f.curr.pairId));
    assert WithLp(f.curr, LpOf(f.lps, f.curr.pairId)) == LastRow(log);
    forall p: nat ensures LpOf(latest + f.lps, p) == (Sum0(log, p), Sum1(log, p)) {
      assert (if p in f.lps then f.lps[p] else LpOf(latest, p)) == (Sum0(log, p), Sum1(log, p));
    }
  }

  /** The number of entries below a height. */
  function Below(log: Log, h: nat): (n: nat)
    ensures n <= |log|
  {
    if log == [] || log[|log| - 1].height < h then |log| else Below(log[..|log| - 1], h)
  }

  lemma {:induction false} BelowCuts(log: Log, h: nat)
    requires Ordered(log)
    ensures forall i :: 0 <= i < |log| ==> (i < Below(log, h) <==> log[i].height < h)
  {
    if log != [] {
      var n := |log| - 1;
      if log[n].height < h {
        forall i | 0 <= i < n ensures log[i].height < h { assert InOrder(log, i, n); }
      } else {
        OrderedPrefix(log, n);
        BelowCuts(log[..n], h);
      }
    }
  }

  lemma CutUnique(log: Log, a: nat, b: nat, h: nat)
    requires a <= |log| && b <= |log|
    requires forall i :: 0 <= i < |log| ==> (i < a <==> log[i].height < h)
    requires forall i :: 0 <= i < |log| ==> (i < b <==> log[i].height < h)
    ensures a == b
  {
    assert a < |log| ==> (a < b <==> log[a].height < h);
    assert b < |log| ==> (b < a <==> log[b].height < h);
  }

  // ---- the query ----

  /** The transactions that have a pair. */
  function Joined(raw: seq<Parsed>): Log {
    if raw == [] then [] else
      var p := raw[|raw| - 1];
      Joined(raw[..|raw| - 1]) +
      if p.pairId.Some? then [Tx(p.height, p.pairId.value, p.timestamp, p.amount0, p.amount1)] else []
  }

  /** The heights of all transactions. */
  function Heights(raw: seq<Parsed>): (all: seq<nat>)
    ensures |all| == |raw| && forall i :: 0 <= i < |raw| ==> all[i] == raw[i].height
  {
    seq(|raw|, i requires 0 <= i < |raw| => raw[i].height)
  }

  ghost predicate Rising(all: seq<nat>) {
    forall i, j :: 0 <= i < j < |all| ==> all[i] <= all[j]
  }

  /** The database orders transactions by height, and those of a height by their pair. */
  ghost predicate Stored(raw: seq<Parsed>) {
    Rising(Heights(raw)) && Ordered(Joined(raw))
  }

  ghost predicate Covers(all: seq<nat>, log: Log) {
    forall i :: 0 <= i < |log| ==> log[i].height in all
  }

  lemma {:induction false} HeightsCover(raw: seq<Parsed>)
    ensures Covers(Heights(raw), Joined(raw))
  {
    if raw != [] {
      var n := |raw| - 1;
      HeightsCover(raw[..n]);
      var all, log := Heights(raw), Joined(raw);
      assert all == Heights(raw[..n]) + [raw[n].height];
      forall i | 0 <= i < |log| ensures log[i].height in all {
        if i < |Joined(raw[..n])| { assert log[i] == Joined(raw[..n])[i]; }
      }
    }
  }

  /** The number of heights below one. */
  function FirstAt(all: seq<nat>, h: nat): (n: nat)
    ensures n <= |all|
  {
    if all == [] || all[|all| - 1] < h then |all| else FirstAt(all[..|all| - 1], h)
  }

  lemma {:induction false} FirstAtCuts(all: seq<nat>, h: nat)
    requires Rising(all)
    ensures forall i :: 0 <= i < |all| ==> (i < FirstAt(all, h) <==> all[i] < h)
  {
    if all != [] && all[|all| - 1] >= h {
      FirstAtCuts(all[..|all| - 1], h);
    }
  }

  /** The height of the last of the `limit` transactions from a height on. */
  function Cutoff(all: seq<nat>, start: nat, limit: nat): Option<nat>
    requires limit > 0
  {
    var from := FirstAt(all, start);
    if from >= |all| then None
    else Some(if from + limit < |all| then all[from + limit - 1] else all[|all| - 1])
  }

  /** The query: from a height on, whole heights until `limit` transactions are seen, of which
      only those with a pair are returned. */
  function Fetch(log: Log, all: seq<nat>, start: nat, limit: nat): Log
    requires limit > 0
  {
    var cutoff := Cutoff(all, start, limit);
    if cutoff.None? then [] else
      var from, to := Below(log, start), Below(log, cutoff.value + 1);
      if to <= from then [] else log[from..to]
  }

  /** `limit` transactions without a pair stand before the next one that has one. */
  ghost predicate Stalled(log: Log, all: seq<nat>, start: nat, limit: nat)
    requires limit > 0
  {
    var from, next := FirstAt(all, start), Below(log, start);
    next < |log| && from + limit <= |all| && all[from + limit - 1] < log[next].height
  }

  /** The query returns nothing exactly when no transaction with a pair is left, or too many
      without one come first. */
  lemma {:induction false} EmptyFetchIff(log: Log, all: seq<nat>, start: nat, limit: nat)
    requires Ordered(log) && Rising(all) && Covers(all, log) && limit > 0
    ensures Fetch(log, all, start, limit) == [] <==> Below(log, start) == |log| || Stalled(log, all, start, limit)
  {
    var from, next := FirstAt(all, start), Below(log, start);
    FirstAtCuts(all, start);
    BelowCuts(log, start);
    if next < |log| {
      var j :| 0 <= j < |all| && all[j] == log[next].height;
      assert from <= j;
      var cutoff := Cutoff(all, start, limit).value;
      BelowCuts(log, cutoff + 1);
      assert from + limit > |all| ==> cutoff >= all[j];
    } else if Cutoff(all, start, limit).Some? {
      assert Below(log, Cutoff(all, start, limit).value + 1) <= |log|;
    }
  }

  function LatestOf(rows: seq<Row>): map<nat, (int, int)> {
    if rows == [] then map[] else
      var r := rows[|rows| - 1];
      LatestOf(rows[..|rows| - 1])[r.pairId := (r.liquidity0, r.liquidity1)]
  }

  lemma {:induction false} LatestMatches(log: Log)
    ensures Matches(LatestOf(History(log)), log)
  {
    if log != [] {
      var n := |log| - 1;
      LatestMatches(log[..n]);
      assert History(log)[..|History(log)| - 1] == Closed(log);
      if n > 0 && SameGroup(log[n - 1], log[n]) {
        assert History(log[..n])[..|History(log[..n])| - 1] == Closed(log[..n]);
      }
    }
  }

  /** What one more stored transaction does to the history: without a pair nothing; with one its
      amounts are added to the last liquidity of its pair, first to first and second to second,
      and the last row shows that. */
  lemma {:induction false} OneMoreTransaction(raw: seq<Parsed>, p: Parsed)
    ensures History(Joined([])) == []
    ensures var (was, now) := (LatestOf(History(Joined(raw))), LatestOf(History(Joined(raw + [p]))));
            && (p.pairId.None? ==> History(Joined(raw + [p])) == History(Joined(raw)))
            && (p.pairId.Some? ==>
                  var q := p.pairId.value;
                  && LpOf(now, q) == (LpOf(was, q).0 + p.amount0, LpOf(was, q).1 + p.amount1)
                  && (forall other: nat :: other != q ==> LpOf(now, other) == LpOf(was, other))
                  && History(Joined(raw + [p])) != []
                  && var rows := History(Joined(raw + [p]));
                     var last := rows[|rows| - 1];
                     && last.height == p.height && last.pairId == q
                     && last.liquidity0 == LpOf(now, q).0 && last.liquidity1 == LpOf(now, q).1)
    ensures var (was, now) := (History(Joined(raw)), History(Joined(raw + [p])));
            p.pairId.Some? ==>
              if was != [] && was[|was| - 1].height == p.height && was[|was| - 1].pairId == p.pairId.value
              then |now| == |was| && now[..|was| - 1] == was[..|was| - 1] &&
                   now[|was| - 1].timestamp == was[|was| - 1].timestamp
              else |now| == |was| + 1 && now[..|was|] == was && now[|was|].timestamp == p.timestamp
  {
    var all := raw + [p];
    assert all[..|all| - 1] == raw;
    LatestMatches(Joined(raw));
    LatestMatches(Joined(all));
    if p.pairId.Some? {
      var t := Tx(p.height, p.pairId.value, p.timestamp, p.amount0, p.amount1);
      var log := Joined(raw);
      assert Joined(all) == log + [t];
      Append(log, t);
    } else {
      assert Joined(all) == Joined(raw);
    }
  }

  /** The table holds the history of all heights up to some height. */
  ghost predicate AtBoundary(rows: seq<Row>, log: Log) {
    exists h: nat :: rows == History(log[..Below(log, h)])
  }

  function Top(rows: seq<Row>): nat {
    if rows == [] then 0 else rows[|rows| - 1].height
  }

  /** The table's last height tells where the log goes on. */
  lemma {:induction false} ResumeHere(log: Log, rows: seq<Row>, h: nat)
    requires Ordered(log) && rows == History(log[..Below(log, h)])
    ensures Below(log, Top(rows) + 1) == Below(log, h)
  {
    var from := Below(log, h);
    BelowCuts(log, h);
    BelowCuts(log, Top(rows) + 1);
    forall i | 0 <= i < |log| ensures i < from <==> log[i].height < Top(rows) + 1 {
      if from > 0 {
        assert log[..from][from - 1] == log[from - 1] && Top(rows) == log[from - 1].height;
        if i < from - 1 { assert InOrder(log, i, from - 1); }
      }
    }
    CutUnique(log, from, Below(log, Top(rows) + 1), Top(rows) + 1);
  }

  lemma {:induction false} WholeHeight(log: Log, h: nat)
    requires Ordered(log) && 0 < Below(log, h)
    ensures Below(log, log[Below(log, h) - 1].height + 1) == Below(log, h)
  {
    var to := Below(log, h);
    var top := log[to - 1].height;
    BelowCuts(log, h);
    BelowCuts(log, top + 1);
    forall i | 0 <= i < |log| ensures i < to <==> log[i].height < top + 1 {
      if i < to - 1 { assert InOrder(log, i, to - 1); }
    }
    CutUnique(log, to, Below(log, top + 1), top + 1);
  }

  /** What the query returns is a stretch of the log that starts where asked and never cuts a
      height. */
  lemma {:induction false} FetchSlice(log: Log, all: seq<nat>, start: nat, limit: nat)
    requires Ordered(log) && limit > 0 && Fetch(log, all, start, limit) != []
    ensures var from, txs := Below(log, start), Fetch(log, all, start, limit);
            && from + |txs| <= |log| && txs == log[from..from + |txs|]
            && (from > 0 ==> log[from - 1].height != txs[0].height)
            && from + |txs| == Below(log, txs[|txs| - 1].height + 1)
  {
    BelowCuts(log, start);
    WholeHeight(log, Cutoff(all, start, limit).value + 1);
  }

  /** The table and the balances reflect exactly the entries below `h`. */
  ghost predicate UpToDate(rows: seq<Row>, latest: map<nat, (int, int)>, log: Log, h: nat) {
    rows == History(log[..Below(log, h)]) && Matches(latest, log[..Below(log, h)])
  }

  lemma SliceJoin(log: Log, a: nat, b: nat)
    requires a <= b <= |log|
    ensures log[..a] + log[a..b] == log[..b]
  {
  }

  lemma SlicePositive(log: Log, a: nat, b: nat)
    requires Ordered(log) && a <= b <= |log|
    ensures forall t :: t in log[a..b] ==> t.height > 0
  {
    forall t | t in log[a..b] ensures t.height > 0 {
      var i :| a <= i < b && log[i] == t;
    }
  }

  /** A chunk continues the log where the table ends, at a new height. */
  ghost predicate Continues(log: Log, h: nat, txs: Log) {
    && txs != [] && (forall t :: t in txs ==> t.height > 0)
    && (Below(log, h) > 0 ==> log[Below(log, h) - 1].height != txs[0].height)
    && log[..Below(log, h)] + txs == log[..Below(log, txs[|txs| - 1].height + 1)]
  }

  lemma {:induction false} FetchContinues(log: Log, all: seq<nat>, h: nat, start: nat, limit: nat, txs: Log)
    requires Ordered(log) && limit > 0 && Below(log, start) == Below(log, h)
    requires txs == Fetch(log, all, start, limit) && txs != []
    ensures Continues(log, h, txs)
  {
    var from := Below(log, h);
    FetchSlice(log, all, start, limit);
    assert forall t :: t in txs ==> t.height > 0 by { SlicePositive(log, from, from + |txs|); }
    assert log[..from] + txs == log[..from + |txs|] by { SliceJoin(log, from, from + |txs|); }
  }

  lemma {:induction false} FetchedNext(log: Log, all: seq<nat>, rows: seq<Row>, latest: map<nat, (int, int)>, h: nat,
                                       limit: nat, lastHeight: nat, txs: Log)
    requires Ordered(log) && limit > 0 && UpToDate(rows, latest, log, h) && lastHeight == Top(rows)
    requires txs == Fetch(log, all, lastHeight + 1, limit) && txs != []
    ensures Continues(log, h, txs)
  {
    ResumeHere(log, rows, h);
    FetchContinues(log, all, h, Top(rows) + 1, limit, txs);
  }

  // ---- when the query stalls ----

  lemma TopOfMore(rows: seq<Row>, more: seq<Row>)
    requires more != []
    ensures Top(rows + more) == more[|more| - 1].height && rows <= rows + more
  {
  }

  /** A height at which an execution that begins at `top` may look for more. */
  ghost predicate IsStop(log: Log, top: nat, a: nat) {
    a == top || (a > top && exists i :: 0 <= i < |log| && log[i].height == a)
  }

  ghost predicate StallsAt(log: Log, all: seq<nat>, top: nat, a: nat, limit: nat)
    requires limit > 0
  {
    IsStop(log, top, a) && Stalled(log, all, a + 1, limit)
  }

  /** From `top` on, fewer than `limit` transactions without a pair stand between two heights
      that have one with a pair. */
  ghost predicate NeverStalls(log: Log, all: seq<nat>, top: nat, limit: nat)
    requires limit > 0
  {
    forall a: nat :: !StallsAt(log, all, top, a, limit)
  }

  /** No chunk gets past a height at which the query stalls. */
  lemma {:induction false} StallHolds(log: Log, all: seq<nat>, start: nat, a: nat, limit: nat)
    requires Ordered(log) && Rising(all) && limit > 0 && Stalled(log, all, a + 1, limit) && start <= a + 1
    ensures var txs := Fetch(log, all, start, limit); txs != [] ==> txs[|txs| - 1].height <= a
  {
    if Fetch(log, all, start, limit) != [] {
      var cutoff := Cutoff(all, start, limit).value;
      CutoffGrows(all, start, a + 1, limit);
      BelowCuts(log, a + 1);
      BelowCuts(log, cutoff + 1);
    }
  }

  lemma {:induction false} CutoffGrows(all: seq<nat>, start: nat, h: nat, limit: nat)
    requires Rising(all) && limit > 0 && start <= h && FirstAt(all, h) + limit <= |all|
    ensures Cutoff(all, start, limit).Some? && Cutoff(all, start, limit).value <= all[FirstAt(all, h) + limit - 1]
  {
    var from, later := FirstAt(all, start), FirstAt(all, h);
    FirstAtCuts(all, start);
    FirstAtCuts(all, h);
    assert later < |all| ==> all[later] >= h;
    assert from <= later;
  }

  /** Heights up to `reached` are done, and at none of them before it did the query stall. */
  ghost predicate Held(reached: nat, log: Log, all: seq<nat>, top: nat, limit: nat)
    requires limit > 0
  {
    IsStop(log, top, reached) && forall a: nat :: StallsAt(log, all, top, a, limit) ==> reached <= a
  }

  lemma {:induction false} HeldOn(reached: nat, txs: Log, log: Log, all: seq<nat>, top: nat, limit: nat)
    requires Ordered(log) && Rising(all) && limit > 0 && Held(reached, log, all, top, limit)
    requires txs == Fetch(log, all, reached + 1, limit) && txs != []
    ensures Held(txs[|txs| - 1].height, log, all, top, limit)
  {
    var k := FetchLast(log, all, reached + 1, limit);
    assert IsStop(log, top, log[k].height);
    forall a: nat | StallsAt(log, all, top, a, limit) ensures txs[|txs| - 1].height <= a {
      StallHolds(log, all, reached + 1, a, limit);
    }
  }

  /** The last transaction a query returns. */
  lemma {:induction false} FetchLast(log: Log, all: seq<nat>, start: nat, limit: nat) returns (k: nat)
    requires Ordered(log) && limit > 0 && Fetch(log, all, start, limit) != []
    ensures var txs := Fetch(log, all, start, limit);
            k < |log| && log[k] == txs[|txs| - 1] && log[k].height >= start
  {
    var txs := Fetch(log, all, start, limit);
    FetchSlice(log, all, start, limit);
    BelowCuts(log, start);
    k := Below(log, start) + |txs| - 1;
  }

  /** The loop ends with the whole history exactly when the query does not stall on the way. */
  lemma {:induction false} CompleteIff(rows: seq<Row>, log: Log, all: seq<nat>, h: nat, top: nat, limit: nat)
    requires Ordered(log) && Rising(all) && Covers(all, log) && limit > 0
    requires Held(Top(rows), log, all, top, limit)
    requires rows == History(log[..Below(log, h)]) && Fetch(log, all, Top(rows) + 1, limit) == []
    ensures rows == History(log) <==> NeverStalls(log, all, top, limit)
  {
    ResumeHere(log, rows, h);
    if Below(log, h) == |log| {
      assert log[..|log|] == log;
      forall a: nat ensures !StallsAt(log, all, top, a, limit) { NothingAbove(log, all, rows, top, a, limit); }
    } else {
      EmptyFetchIff(log, all, Top(rows) + 1, limit);
      StalledHere(log, all, rows, top, limit);
      Incomplete(log, rows);
    }
  }

  lemma StalledHere(log: Log, all: seq<nat>, rows: seq<Row>, top: nat, limit: nat)
    requires limit > 0 && StallsAt(log, all, top, Top(rows), limit)
    ensures !NeverStalls(log, all, top, limit)
  {
  }

  lemma {:induction false} Incomplete(log: Log, rows: seq<Row>)
    requires Ordered(log) && Below(log, Top(rows) + 1) < |log|
    ensures rows != History(log)
  {
    BelowCuts(log, Top(rows) + 1);
    assert Top(History(log)) == log[|log| - 1].height;
  }

  lemma {:induction false} NothingAbove(log: Log, all: seq<nat>, rows: seq<Row>, top: nat, a: nat, limit: nat)
    requires Ordered(log) && limit > 0
    requires Held(Top(rows), log, all, top, limit) && Below(log, Top(rows) + 1) == |log|
    ensures !StallsAt(log, all, top, a, limit)
  {
    BelowCuts(log, Top(rows) + 1);
    BelowCuts(log, a + 1);
  }

  /** `limit` transactions without a pair, before one with a pair, end every execution at once. */
  lemma {:induction false} UnpairedWindowStalls(limit: nat)
    requires limit > 0
    ensures var raw := seq(limit, _ => Parsed(1, None, 0, 0, 0)) + [Parsed(2, Some(0), 0, 3, 4)];
            Stored(raw) && !NeverStalls(Joined(raw), Heights(raw), 0, limit)
  {
    var none := seq(limit, _ => Parsed(1, None, 0, 0, 0));
    var raw := none + [Parsed(2, Some(0), 0, 3, 4)];
    assert raw[..limit] == none;
    NothingJoined(none);
    var log, all := Joined(raw), Heights(raw);
    assert log == [Tx(2, 0, 0, 3, 4)];
    FirstAtCuts(all, 1);
    BelowCuts(log, 1);
    assert FirstAt(all, 1) == 0 by { assert all[0] == 1; }
    assert all[limit - 1] == 1;
    assert StallsAt(log, all, 0, 0, limit);
  }

  lemma {:induction false} NothingJoined(raw: seq<Parsed>)
    requires forall i :: 0 <= i < |raw| ==> raw[i].pairId.None?
    ensures Joined(raw) == []
  {
    if raw != [] { NothingJoined(raw[..|raw| - 1]); }
  }

  // ---- LpHistoryTask ----

  /** An execution that began at `top0` has processed exactly the entries below `h`. */
  ghost predicate Chasing(rows: seq<Row>, latest: map<nat, (int, int)>, log: Log, all: seq<nat>, h: nat, top0: nat,
                          limit: nat)
    requires limit > 0
  {
    && Ordered(log) && Rising(all) && Covers(all, log)
    && UpToDate(rows, latest, log, h) && Held(Top(rows), log, all, top0, limit)
  }

  /** One turn of the loop: fetch and fold the next chunk. No rows means that the loop ends, and
      then the table is complete exactly when the query did not stall. */
  method NextChunk(log: Log, all: seq<nat>, ghost rows: seq<Row>, lastHeight: nat, latest: map<nat, (int, int)>,
                   limit: nat, ghost h: nat, ghost top0: nat)
    returns (history: seq<Row>, next: map<nat, (int, int)>, ghost top: nat)
    requires limit > 0 && Chasing(rows, latest, log, all, h, top0, limit) && lastHeight == Top(rows)
    ensures history == [] ==> (rows == History(log) <==> NeverStalls(log, all, top0, limit))
    ensures history != [] ==> Below(log, h) < Below(log, top)
    ensures history != [] ==> Chasing(rows + history, next, log, all, top, top0, limit)
  {
    var txs := Fetch(log, all, lastHeight + 1, limit);
    if |txs| < 1 {
      CompleteIff(rows, log, all, h, top0, limit);
      return [], latest, 0;
    }
    FetchedNext(log, all, rows, latest, h, limit, lastHeight, txs);
    HeldOn(lastHeight, txs, log, all, top0, limit);
    history, next, top := ProcessChunk(log, rows, latest, h, txs);
    TopOfMore(rows, history);
  }

  /** The rows of a chunk continue the history. */
  method ProcessChunk(ghost log: Log, ghost rows: seq<Row>, latest: map<nat, (int, int)>, ghost h: nat, txs: Log)
    returns (history: seq<Row>, next: map<nat, (int, int)>, ghost top: nat)
    requires UpToDate(rows, latest, log, h) && Continues(log, h, txs)
    ensures history != [] && top == Top(history) + 1 && Below(log, h) < Below(log, top)
    ensures UpToDate(rows + history, next, log, top) && Top(history) == txs[|txs| - 1].height
  {
    ghost var done := log[..Below(log, h)];
    top := txs[|txs| - 1].height + 1;
    history, next := GenerateHistory(latest, txs, done);
    assert |done + txs| == Below(log, top);
    assert done + txs == log[..Below(log, top)];
  }

  /** Heights behind the end of the log are above those before it. */
  lemma {:induction false} MoreIsAbove(log: Log, more: Log, i: nat, j: nat)
    requires Ordered(log + more) && i < |log| <= j < |log + more|
    requires log[|log| - 1].height < more[0].height
    ensures (log + more)[i].height < (log + more)[j].height
  {
    var all, last := log + more, |log| - 1;
    assert all[last] == log[last] && all[last + 1] == more[0];
    if i < last { assert InOrder(all, i, last); }
    if last + 1 < j { assert InOrder(all, last + 1, j); }
  }

  /** A cut of the log is a cut of the longer one. */
  lemma {:induction false} CutOfLonger(log: Log, more: Log, h: nat) returns (k: nat)
    requires Ordered(log) && Ordered(log + more)
    requires log != [] && more != [] ==> log[|log| - 1].height < more[0].height
    ensures Below(log + more, k) == Below(log, h)
  {
    var all, n := log + more, Below(log, h);
    k := if n < |log| then h else if log == [] then 0 else log[|log| - 1].height + 1;
    BelowCuts(log, h);
    BelowCuts(all, k);
    forall i | 0 <= i < |all| ensures i < n <==> all[i].height < k {
      if i < |log| {
        assert all[i] == log[i];
        if i < |log| - 1 { assert InOrder(log, i, |log| - 1); }
      } else if log == [] {
        assert all[i] in all;
      } else {
        MoreIsAbove(log, more, |log| - 1, i);
        if n < |log| { assert log[|log| - 1].height >= h; }
      }
    }
    CutUnique(all, n, Below(all, k), k);
  }

  /** New heights arriving at the end of the log leave the table at a boundary, so an
      execution can go on after any restart. */
  lemma {:induction false} LogGrows(rows: seq<Row>, log: Log, more: Log)
    requires Ordered(log) && Ordered(log + more) && AtBoundary(rows, log)
    requires log != [] && more != [] ==> log[|log| - 1].height < more[0].height
    ensures AtBoundary(rows, log + more)
  {
    var h: nat :| rows == History(log[..Below(log, h)]);
    var k := CutOfLonger(log, more, h);
    assert (log + more)[..Below(log, h)] == log[..Below(log, h)];
  }

  class LpHistoryTask {
    /** The rows of the history table, in the order they were inserted. */
    var table: seq<Row>
    var lastProcessedHeight: nat

    /** Brings the table up to date with the stored transactions.  `loads`, `fetches(n)` and
        `updates(n)` say whether the first read, and the n-th query and insert succeed; a process
        restart may reset `lastProcessedHeight`. */
    method Execute(raw: seq<Parsed>, limit: nat, loads: bool, fetches: nat -> bool, updates: nat -> bool)
      returns (ok: bool)
      requires Stored(raw) && limit > 0 && AtBoundary(table, Joined(raw))
      requires lastProcessedHeight <= Top(table)
      modifies this
      ensures AtBoundary(table, Joined(raw)) && old(table) <= table && lastProcessedHeight <= Top(table)
      ensures ok ==>
        (table == History(Joined(raw)) <==> NeverStalls(Joined(raw), Heights(raw), Top(old(table)), limit))
      ensures loads && (forall n :: fetches(n) && updates(n)) ==> ok
    {
      if !loads {
        return false;
      }
      var log, all := Joined(raw), Heights(raw);
      HeightsCover(raw);
      ghost var h: nat :| table == History(log[..Below(log, h)]);
      var latest := LatestOf(table);
      LatestMatches(log[..Below(log, h)]);
      if Top(table) > lastProcessedHeight {
        lastProcessedHeight := Top(table);
      }
      ok := Catch(log, all, limit, latest, fetches, updates, h);
    }

    /** The loop over the chunks. */
    method Catch(log: Log, all: seq<nat>, limit: nat, latest0: map<nat, (int, int)>, fetches: nat -> bool,
                 updates: nat -> bool, ghost h0: nat)
      returns (ok: bool)
      requires Ordered(log) && Rising(all) && Covers(all, log) && limit > 0
      requires UpToDate(table, latest0, log, h0) && lastProcessedHeight == Top(table)
      modifies this
      ensures AtBoundary(table, log) && old(table) <= table && lastProcessedHeight == Top(table)
      ensures ok ==> (table == History(log) <==> NeverStalls(log, all, Top(old(table)), limit))
      ensures (forall n :: fetches(n) && updates(n)) ==> ok
    {
      var latest, n := latest0, 0;
      ghost var h, rows0, top0 := h0, table, Top(table);
      while true
        invariant rows0 <= table && lastProcessedHeight == Top(table)
        invariant Chasing(table, latest, log, all, h, top0, limit)
        decreases |log| - Below(log, h)
      {
        if !fetches(n) {
          return false;
        }
        var history, next;
        ghost var top;
        history, next, top := NextChunk(log, all, table, lastProcessedHeight, latest, limit, h, top0);
        if history == [] {
          return true;
        }
        if !updates(n) {
          return false;
        }
        TopOfMore(table, history);
        table, latest, h := table + history, next, top;
        lastProcessedHeight := history[|history| - 1].height;
        n := n + 1;
      }
    }
  }
}
