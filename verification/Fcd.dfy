/** Collection from an FCD server, which only answers "the newest transactions below an
    offset": binary search for the first offset above a height, paging downwards, and the
    loop that stores every page (collector/terra/fcd, pkg/terra/fcd). */
module Fcd {
  import opened Attempts

  type uint32 = x: int | 0 <= x < 0x1_0000_0000

  const FCD_TXS_MAX_OFFSET := 0x7FFF_FFFF
  const FCD_TXS_MIN_LIMIT := 10
  const FCD_TXS_MAX_LIMIT := 100
  const INSERT_SPLIT := 1000
  const COLLECT_LIMIT := 1000

  /** A transaction of the account; `id` is the server's running number. */
  datatype Tx = Tx(id: uint32, height: uint32, hash: string)

  /** What the server holds for the account: running numbers from 1, heights that follow them. */
  ghost predicate Ordered(log: seq<Tx>) {
    && (forall t :: t in log ==> t.id > 0)
    && (forall i, j :: 0 <= i < j < |log| ==> log[i].id < log[j].id)
    && (forall i, j :: 0 <= i < j < |log| ==> log[i].height <= log[j].height)
  }

  /** The paging offsets reach every transaction at or below the height. */
  ghost predicate Reachable(log: seq<Tx>, height: uint32) {
    forall t :: t in log && t.height <= height ==> t.id < FCD_TXS_MAX_OFFSET - 1
  }

  /** How many transactions lie below an offset. */
  function Below(log: seq<Tx>, offset: int): (n: nat)
    ensures n <= |log|
  {
    if log == [] then 0
    else if log[|log| - 1].id < offset then |log|
    else Below(log[..|log| - 1], offset)
  }

  /** How many transactions lie at or below a height. */
  function UpTo(log: seq<Tx>, height: uint32): (n: nat)
    ensures n <= |log|
  {
    if log == [] then 0
    else if log[|log| - 1].height <= height then |log|
    else UpTo(log[..|log| - 1], height)
  }

  /** The `n` newest transactions, newest first. */
  function Newest(log: seq<Tx>, n: nat): (page: seq<Tx>)
  {
    if log == [] || n == 0 then [] else [log[|log| - 1]] + Newest(log[..|log| - 1], n - 1)
  }

  lemma {:induction false} BelowSplits(log: seq<Tx>, offset: int)
    requires Ordered(log)
    ensures forall i :: 0 <= i < |log| ==> (log[i].id < offset <==> i < Below(log, offset))
  {
    if log != [] && log[|log| - 1].id >= offset {
      BelowSplits(log[..|log| - 1], offset);
      assert forall i :: 0 <= i < |log| - 1 ==> log[i] == log[..|log| - 1][i];
    }
  }

  lemma {:induction false} UpToSplits(log: seq<Tx>, height: uint32)
    requires Ordered(log)
    ensures forall i :: 0 <= i < |log| ==> (log[i].height <= height <==> i < UpTo(log, height))
  {
    if log != [] && log[|log| - 1].height > height {
      UpToSplits(log[..|log| - 1], height);
      assert forall i :: 0 <= i < |log| - 1 ==> log[i] == log[..|log| - 1][i];
    }
  }

  lemma {:induction false} BelowAt(log: seq<Tx>, i: nat)
    requires Ordered(log) && i < |log|
    ensures Below(log, log[i].id) == i
  {
    BelowSplits(log, log[i].id);
    if i > 0 { assert log[i - 1].id < log[i].id; }
  }

  lemma {:induction false} NewestIs(log: seq<Tx>, n: nat)
    ensures |Newest(log, n)| == if n <= |log| then n else |log|
    ensures forall i :: 0 <= i < |Newest(log, n)| ==> Newest(log, n)[i] == log[|log| - 1 - i]
  {
    if log != [] && n > 0 {
      var last, rest := |log| - 1, log[..|log| - 1];
      NewestIs(rest, n - 1);
      var page := Newest(log, n);
      assert page == [log[last]] + Newest(rest, n - 1);
      forall i | 0 <= i < |page| ensures page[i] == log[last - i] {
        if i > 0 { assert page[i] == Newest(rest, n - 1)[i - 1] && rest[last - i] == log[last - i]; }
      }
    }
  }

  /** A page that starts where another one ended continues it without a gap or a repetition. */
  lemma PagesJoin(log: seq<Tx>, k: nat, n: nat)
    requires k <= |log|
    ensures Newest(log, k) + Newest(log[..|log| - k], n) == Newest(log, k + n)
  {
    NewestIs(log, k);
    NewestIs(log[..|log| - k], n);
    NewestIs(log, k + n);
  }

  /** All of the newest first is a permutation: every transaction once. */
  lemma {:induction false} NewestIsPermutation(log: seq<Tx>)
    ensures multiset(Newest(log, |log|)) == multiset(log)
  {
    if log != [] {
      NewestIsPermutation(log[..|log| - 1]);
      assert log == log[..|log| - 1] + [log[|log| - 1]];
    }
  }

  /** The server. It may fail; a healthy one does not. */
  class Server {
    const log: seq<Tx>
    const healthy: bool

    constructor (log: seq<Tx>, healthy: bool)
      ensures this.log == log && this.healthy == healthy
    {
      this.log, this.healthy := log, healthy;
    }

    method TxsOf(offset: int, limit: nat) returns (res: Attempt<seq<Tx>>)
      ensures res.Ok? ==> res.value == Newest(log[..Below(log, offset)], limit)
      ensures healthy ==> res.Ok?
    {
      if !healthy {
        if * { return Err; }
      }
      return Ok(Newest(log[..Below(log, offset)], limit));
    }
  }

  /** Where the search ends: the first transaction above the height, or the top sentinel. */
  ghost function StartOffset(log: seq<Tx>, height: uint32): int {
    var n := UpTo(log, height);
    if n < |log| && log[n].id < FCD_TXS_MAX_OFFSET - 1 then log[n].id else FCD_TXS_MAX_OFFSET - 1
  }

  /** Below the start offset lie exactly the transactions at or below the height, provided
      the offsets reach them; otherwise some of them are missed. */
  lemma {:induction false} StartCovers(log: seq<Tx>, height: uint32)
    requires Ordered(log)
    ensures Below(log, StartOffset(log, height)) == UpTo(log, height) <==> Reachable(log, height)
  {
    var n, start := UpTo(log, height), StartOffset(log, height);
    UpToSplits(log, height);
    BelowSplits(log, start);
    if Below(log, start) == n {
      forall t | t in log && t.height <= height
        ensures t.id < FCD_TXS_MAX_OFFSET - 1
      {
        var i :| 0 <= i < |log| && log[i] == t;
        assert log[i].id < start;
      }
    }
    if Reachable(log, height) {
      assert forall i :: 0 <= i < n ==> log[i] in log && log[i].id < start;
      if n < |log| { assert log[n].id >= start; }
      if n > 0 { assert log[n - 1].id < start; }
    }
  }

  /** How many transactions the search can reach: those below its start offset. */
  ghost function Reached(log: seq<Tx>, height: uint32): (n: nat)
    ensures n <= |log|
  {
    Below(log, StartOffset(log, height))
  }

  /** Within the height and the range of the offsets. */
  predicate InRange(t: Tx, height: uint32) {
    t.height <= height && t.id < FCD_TXS_MAX_OFFSET - 1
  }

  lemma {:induction false} ReachedSplits(log: seq<Tx>, height: uint32)
    requires Ordered(log)
    ensures forall i :: 0 <= i < |log| ==> (InRange(log[i], height) <==> i < Reached(log, height))
    ensures Reached(log, height) == 0 <==> forall t :: t in log ==> !InRange(t, height)
  {
    var n, start := UpTo(log, height), StartOffset(log, height);
    UpToSplits(log, height);
    BelowSplits(log, start);
    forall i | 0 <= i < |log| ensures InRange(log[i], height) <==> i < Reached(log, height) {
      assert i < Reached(log, height) <==> log[i].id < start;
      if i < n && n < |log| { assert log[i].id < log[n].id; }
      if n < i { assert log[n].id < log[i].id; }
    }
    if Reached(log, height) > 0 { assert log[0] in log; }
  }

  /** The newest transaction below the offset is above the height. */
  ghost predicate Above(log: seq<Tx>, offset: int, height: uint32) {
    var n := Below(log, offset);
    n > 0 && log[n - 1].height > height
  }

  lemma AboveFromStart(log: seq<Tx>, offset: int, height: uint32)
    requires Ordered(log) && offset < FCD_TXS_MAX_OFFSET
    ensures Above(log, offset, height) <==> offset > StartOffset(log, height)
  {
    UpToSplits(log, height);
    BelowSplits(log, offset);
    var n, m := UpTo(log, height), Below(log, offset);
    if offset > StartOffset(log, height) {
      assert n < |log| && log[n].id < offset;
      assert m > n;
      assert m - 1 >= n;
    } else if n < |log| {
      assert !(log[n].id < offset);
    }
  }

  class FcdRepo {
    const server: Server

    constructor (server: Server)
      ensures this.server == server
    {
      this.server := server;
    }

    method HasMoreTx(collectedOffset: uint32) returns (res: Attempt<bool>)
      ensures res.Ok? ==> res.value == (Below(server.log, collectedOffset) > 0)
      ensures server.healthy ==> res.Ok?
    {
      var page := server.TxsOf(collectedOffset, FCD_TXS_MAX_LIMIT);
      if page.Err? { return Err; }
      NewestIs(server.log[..Below(server.log, collectedOffset)], FCD_TXS_MAX_LIMIT);
      return Ok(|page.value| != 0);
    }

    method FindStartOffset(targetHeight: uint32) returns (res: Attempt<uint32>)
      requires Ordered(server.log)
      ensures res.Ok? ==> res.value == StartOffset(server.log, targetHeight)
      ensures server.healthy ==> res.Ok?
    {
      var l, r := 0, FCD_TXS_MAX_OFFSET;
      ghost var start := StartOffset(server.log, targetHeight);
      assert 0 < start < FCD_TXS_MAX_OFFSET;
      while l < r
        invariant 0 <= l <= r <= FCD_TXS_MAX_OFFSET
        invariant l <= start + 1 <= r
      {
        var mid := (l + r) / 2;
        AboveFromStart(server.log, mid, targetHeight);
        var page := server.TxsOf(mid, FCD_TXS_MIN_LIMIT);
        if page.Err? { return Err; }
        NewestIs(server.log[..Below(server.log, mid)], FCD_TXS_MIN_LIMIT);
        if |page.value| == 0 {
          l := mid + 1;
        } else if targetHeight < page.value[0].height {
          r := mid;
        } else {
          l := mid + 1;
        }
      }
      return Ok(l - 1);
    }

    /** One contiguous block, newest first: everything below the start, or the least number
        of full pages that holds `maxLen` transactions. A collected offset of zero means that
        nothing is stored yet, and starts at the first transaction above the height. */
    method TxsOf(collectedOffset: uint32, untilHeight: uint32, maxLen: uint32) returns (res: Attempt<seq<Tx>>)
      requires Ordered(server.log)
      ensures res.Ok? ==>
        var start := if collectedOffset == 0 then StartOffset(server.log, untilHeight) else collectedOffset;
        res.value == Newest(server.log[..Below(server.log, start)], ChunkSize(maxLen))
      ensures server.healthy ==> res.Ok?
    {
      if collectedOffset != 0 {
        res := PagesFrom(collectedOffset, maxLen);
      } else {
        var found := FindStartOffset(untilHeight);
        if found.Err? { return Err; }
        res := PagesFrom(found.value, maxLen);
      }
    }

    /** The paging loop of `TxsOf`. */
    method PagesFrom(startOffset: uint32, maxLen: uint32) returns (res: Attempt<seq<Tx>>)
      requires Ordered(server.log)
      ensures res.Ok? ==>
        res.value == Newest(server.log[..Below(server.log, startOffset)], ChunkSize(maxLen))
      ensures server.healthy ==> res.Ok?
    {
      var offset := startOffset;
      ghost var n, pages: nat := Below(server.log, offset), 0;
      var txs: seq<Tx> := [];
      while true
        invariant Paged(server.log, n, pages, txs, offset)
        invariant pages == 0 || |txs| < maxLen
        decreases n - |txs|
      {
        var page := server.TxsOf(offset, FCD_TXS_MAX_LIMIT);
        if page.Err? { return Err; }
        if |page.value| == 0 {
          PagesEnd(server.log, n, pages, txs, offset, maxLen);
          break;
        }
        PageFollows(server.log, n, pages, txs, offset, maxLen);
        txs := txs + page.value;
        pages := pages + 1;
        if |txs| >= maxLen {
          return Ok(txs);
        }
        offset := txs[|txs| - 1].id;
      }
      return Ok(txs);
    }
  }

  /** `pages` full pages of the first `n` transactions, newest first (or all there are), and
      the offset at which the next page starts. */
  ghost predicate Paged(log: seq<Tx>, n: nat, pages: nat, txs: seq<Tx>, offset: int) {
    && n <= |log| && |txs| <= n
    && |txs| == (if FCD_TXS_MAX_LIMIT * pages <= n then FCD_TXS_MAX_LIMIT * pages else n)
    && txs == Newest(log[..n], |txs|)
    && Below(log, offset) == n - |txs|
  }

  lemma {:induction false} PageFollows(log: seq<Tx>, n: nat, pages: nat, txs: seq<Tx>, offset: int, maxLen: uint32)
    requires Ordered(log) && Paged(log, n, pages, txs, offset)
    requires pages == 0 || |txs| < maxLen
    requires Newest(log[..Below(log, offset)], FCD_TXS_MAX_LIMIT) != []
    ensures var more := txs + Newest(log[..Below(log, offset)], FCD_TXS_MAX_LIMIT);
            && |more| > |txs| && Paged(log, n, pages + 1, more, more[|more| - 1].id)
            && (|more| >= maxLen ==> more == Newest(log[..n], ChunkSize(maxLen)))
  {
    PageStep(log, n, pages, txs, offset);
    var more := txs + Newest(log[..Below(log, offset)], FCD_TXS_MAX_LIMIT);
    assert pages > 0 ==> FCD_TXS_MAX_LIMIT * pages < maxLen || |more| == |txs|;
    if |more| >= maxLen { PagesSuffice(log, n, pages + 1, more, more[|more| - 1].id, maxLen); }
  }

  lemma {:induction false} PageStep(log: seq<Tx>, n: nat, pages: nat, txs: seq<Tx>, offset: int)
    requires Ordered(log) && Paged(log, n, pages, txs, offset)
    requires Newest(log[..Below(log, offset)], FCD_TXS_MAX_LIMIT) != []
    ensures var more := txs + Newest(log[..Below(log, offset)], FCD_TXS_MAX_LIMIT);
            |more| > |txs| && Paged(log, n, pages + 1, more, more[|more| - 1].id)
  {
    NextPage(log, n, txs);
    LastOfBlock(log, n, |txs + Newest(log[..n - |txs|], FCD_TXS_MAX_LIMIT)|);
  }

  lemma NextPage(log: seq<Tx>, n: nat, txs: seq<Tx>)
    requires n <= |log| && |txs| <= n && txs == Newest(log[..n], |txs|)
    ensures var page := Newest(log[..n - |txs|], FCD_TXS_MAX_LIMIT);
            && |page| == (if FCD_TXS_MAX_LIMIT <= n - |txs| then FCD_TXS_MAX_LIMIT else n - |txs|)
            && txs + page == Newest(log[..n], |txs + page|)
  {
    var rest := log[..n][..n - |txs|];
    assert rest == log[..n - |txs|];
    NewestIs(rest, FCD_TXS_MAX_LIMIT);
    var k := |Newest(rest, FCD_TXS_MAX_LIMIT)|;
    ShortBlock(rest, FCD_TXS_MAX_LIMIT, k);
    PagesJoin(log[..n], |txs|, k);
  }

  lemma {:induction false} LastOfBlock(log: seq<Tx>, n: nat, k: nat)
    requires Ordered(log) && 0 < k <= n <= |log|
    ensures |Newest(log[..n], k)| == k && Below(log, Newest(log[..n], k)[k - 1].id) == n - k
  {
    NewestIs(log[..n], k);
    BelowAt(log, n - k);
  }

  lemma {:induction false} PagesEnd(log: seq<Tx>, n: nat, pages: nat, txs: seq<Tx>, offset: int, maxLen: uint32)
    requires Paged(log, n, pages, txs, offset)
    requires pages == 0 || |txs| < maxLen
    requires Newest(log[..Below(log, offset)], FCD_TXS_MAX_LIMIT) == []
    ensures txs == Newest(log[..n], ChunkSize(maxLen))
  {
    NewestIs(log[..Below(log, offset)], FCD_TXS_MAX_LIMIT);
    assert |txs| == n;
    ShortBlock(log[..n], n, ChunkSize(maxLen));
  }

  lemma {:induction false} PagesSuffice(log: seq<Tx>, n: nat, pages: nat, txs: seq<Tx>, offset: int, maxLen: uint32)
    requires pages > 0 && Paged(log, n, pages, txs, offset)
    requires |txs| >= maxLen
    requires pages == 1 || FCD_TXS_MAX_LIMIT * (pages - 1) < maxLen
    ensures txs == Newest(log[..n], ChunkSize(maxLen))
  {
    assert ChunkSize(maxLen) == FCD_TXS_MAX_LIMIT * pages;
    ShortBlock(log[..n], |txs|, ChunkSize(maxLen));
  }

  /** Whole pages that hold at least `maxLen` transactions, and one page at least. */
  function ChunkSize(maxLen: uint32): (n: nat)
    ensures n >= maxLen && n >= FCD_TXS_MAX_LIMIT
    ensures n % FCD_TXS_MAX_LIMIT == 0
    ensures maxLen > 0 ==> n < maxLen + FCD_TXS_MAX_LIMIT
  {
    if maxLen == 0 then FCD_TXS_MAX_LIMIT
    else (maxLen + FCD_TXS_MAX_LIMIT - 1) / FCD_TXS_MAX_LIMIT * FCD_TXS_MAX_LIMIT
  }

  lemma {:induction false} ShortBlock(log: seq<Tx>, m: nat, n: nat)
    requires (m >= |log| && n >= |log|) || m == n
    ensures Newest(log, m) == Newest(log, n)
  {
    NewestIs(log, m);
    NewestIs(log, n);
  }

  /** The stored rows of the account, in the order they were inserted. */
  class PermanentStore {
    var rows: seq<Tx>
    const healthy: bool

    constructor (healthy: bool)
      ensures rows == [] && this.healthy == healthy
    {
      rows, this.healthy := [], healthy;
    }

    /** The stored row with the least offset; the zero value when nothing is stored. */
    method FirstTxOf() returns (res: Attempt<Tx>)
      ensures res.Ok? && rows == [] ==> res.value == Tx(0, 0, "")
      ensures res.Ok? && rows != [] ==> res.value in rows && forall t :: t in rows ==> res.value.id <= t.id
      ensures healthy ==> res.Ok?
    {
      if !healthy {
        if * { return Err; }
      }
      if rows == [] { return Ok(Tx(0, 0, "")); }
      var first := rows[0];
      for i := 1 to |rows|
        invariant first in rows
        invariant forall j :: 0 <= j < i ==> first.id <= rows[j].id
      {
        if rows[i].id < first.id { first := rows[i]; }
      }
      return Ok(first);
    }

    /** A failure leaves the batches that were written before it. */
    method Inserts(txs: seq<Tx>) returns (ok: bool)
      modifies this
      ensures ok ==> rows == old(rows) + txs
      ensures exists k :: 0 <= k <= |txs| && rows == old(rows) + txs[..k]
      ensures healthy ==> ok
    {
      var idx := 0;
      while true
        invariant 0 <= idx <= |txs|
        invariant rows == old(rows) + txs[..idx]
        invariant idx == 0 || idx < |txs|
        decreases |txs| - idx
      {
        var end := if idx + INSERT_SPLIT > |txs| then |txs| else idx + INSERT_SPLIT;
        if !healthy {
          if * { return false; }
        }
        rows := rows + txs[idx..end];
        assert txs[..idx] + txs[idx..end] == txs[..end];
        if end == |txs| { break; }
        idx := end;
      }
      assert txs[..|txs|] == txs;
      return true;
    }
  }

  /** The stored rows are the newest of the first `n` transactions, without a gap. */
  ghost predicate Block(log: seq<Tx>, rows: seq<Tx>, n: nat) {
    n <= |log| && |rows| <= n && rows == Newest(log[..n], |rows|)
  }

  lemma {:induction false} LeastOfBlock(log: seq<Tx>, rows: seq<Tx>, n: nat, first: Tx)
    requires Ordered(log) && Block(log, rows, n) && rows != []
    requires first in rows && forall t :: t in rows ==> first.id <= t.id
    ensures first == log[n - |rows|] && Below(log, first.id) == n - |rows| && first.id > 0
  {
    NewestIs(log[..n], |rows|);
    var m := n - |rows|;
    assert rows[|rows| - 1] == log[m];
    var i :| 0 <= i < |rows| && rows[i] == first;
    assert rows[i] == log[n - 1 - i];
    assert first.id <= log[m].id;
    BelowAt(log, m);
  }

  lemma BlockGrows(log: seq<Tx>, rows: seq<Tx>, n: nat, chunk: nat, k: nat)
    requires Block(log, rows, n)
    requires k <= |Newest(log[..n - |rows|], chunk)|
    ensures Block(log, rows + Newest(log[..n - |rows|], chunk)[..k], n)
  {
    var rest := log[..n][..n - |rows|];
    assert rest == log[..n - |rows|];
    NewestIs(rest, chunk);
    NewestIs(rest, k);
    assert Newest(rest, chunk)[..k] == Newest(rest, k);
    PagesJoin(log[..n], |rows|, k);
  }

  /** However much of a chunk reaches the store, the rows stay a block; a chunk is not empty
      while something is left. */
  lemma ChunkKeepsBlock(log: seq<Tx>, rows: seq<Tx>, n: nat, txs: seq<Tx>)
    requires Block(log, rows, n) && txs == Newest(log[..n - |rows|], ChunkSize(COLLECT_LIMIT))
    ensures Block(log, rows + txs, n)
    ensures forall k :: 0 <= k <= |txs| ==> Block(log, rows + txs[..k], n)
    ensures |rows| < n ==> txs != []
  {
    NewestIs(log[..n - |rows|], ChunkSize(COLLECT_LIMIT));
    forall k | 0 <= k <= |txs|
      ensures Block(log, rows + txs[..k], n)
    {
      BlockGrows(log, rows, n, ChunkSize(COLLECT_LIMIT), k);
    }
    assert txs[..|txs|] == txs;
  }

  predicate Finished(rows: seq<Tx>, n: nat) {
    rows != [] && |rows| == n
  }

  /** One round of the loop on the stored rows: nothing once everything is collected, else
      the next chunk. */
  ghost function Round(log: seq<Tx>, height: uint32, rows: seq<Tx>, n: nat): seq<Tx>
    requires Block(log, rows, n)
  {
    if Finished(rows, n) then rows
    else
      var from := if rows == [] then Reached(log, height) else n - |rows|;
      rows + Newest(log[..from], ChunkSize(COLLECT_LIMIT))
  }

  class FcdCollector {
    const repo: FcdRepo
    const store: PermanentStore

    constructor (repo: FcdRepo, store: PermanentStore)
      ensures this.repo == repo && this.store == store
    {
      this.repo, this.store := repo, store;
    }

    ghost predicate Healthy() {
      repo.server.healthy && store.healthy
    }

    /** True exactly when something is stored and the server has nothing older. */
    method HasCollected(ghost n: nat) returns (res: Attempt<bool>)
      requires Ordered(repo.server.log) && Block(repo.server.log, store.rows, n)
      ensures res.Ok? ==> res.value == Finished(store.rows, n)
      ensures Healthy() ==> res.Ok?
    {
      var first := store.FirstTxOf();
      if first.Err? { return Err; }
      if store.rows != [] { LeastOfBlock(repo.server.log, store.rows, n, first.value); }
      if first.value.id == 0 { return Ok(false); }
      var more := repo.HasMoreTx(first.value.id);
      if more.Err? { return Err; }
      return Ok(!more.value);
    }

    /** A store that is empty, or holds a block an earlier run left behind, ends up with
        exactly the first `n` transactions; whatever fails, it stays a block of them. */
    method Collect(height: uint32, ghost n: nat) returns (ok: bool)
      requires Ordered(repo.server.log) && Block(repo.server.log, store.rows, n) && n > 0
      requires store.rows == [] ==> n == Reached(repo.server.log, height)
      modifies store
      ensures Block(repo.server.log, store.rows, n) && old(store.rows) <= store.rows
      ensures ok ==> store.rows == Newest(repo.server.log[..n], n)
      ensures Healthy() ==> ok
    {
      ghost var log := repo.server.log;
      while true
        invariant Block(log, store.rows, n) && old(store.rows) <= store.rows
        invariant store.rows == [] ==> n == Reached(log, height)
        decreases n - |store.rows|
      {
        var collected := Turn(height, n);
        if collected.Err? { return false; }
        if collected.value { return true; }
      }
    }

    /** One turn of the loop, also for an account of which nothing can be reached: true when everything
        was collected before, else the next chunk is stored, or a part of it on a failure. */
    method Turn(height: uint32, ghost n: nat) returns (res: Attempt<bool>)
      requires Ordered(repo.server.log) && Block(repo.server.log, store.rows, n)
      requires store.rows == [] ==> n == Reached(repo.server.log, height)
      modifies store
      ensures Block(repo.server.log, store.rows, n) && old(store.rows) <= store.rows
      ensures res.Ok? ==> res.value == Finished(old(store.rows), n)
      ensures res.Ok? ==> store.rows == Round(repo.server.log, height, old(store.rows), n)
      ensures res == Ok(false) && n > 0 ==> |store.rows| > |old(store.rows)|
      ensures Healthy() ==> res.Ok?
    {
      ghost var log := repo.server.log;
      var collected := HasCollected(n);
      if collected.Err? { return Err; }
      if collected.value { return Ok(true); }
      var first := store.FirstTxOf();
      if first.Err? { return Err; }
      if store.rows != [] { LeastOfBlock(log, store.rows, n, first.value); }
      var txs := repo.TxsOf(first.value.id, height, COLLECT_LIMIT);
      if txs.Err? { return Err; }
      ChunkKeepsBlock(log, store.rows, n, txs.value);
      var inserted := store.Inserts(txs.value);
      if !inserted { return Err; }
      return Ok(false);
    }
  }

  /** What a finished collection from an empty store holds: the transactions at or below the
      height that the offsets reach, each once. */
  lemma {:induction false} CollectedExactly(log: seq<Tx>, height: uint32, rows: seq<Tx>)
    requires Ordered(log)
    requires rows == Newest(log[..Reached(log, height)], Reached(log, height))
    ensures forall t :: t in rows <==> t in log && InRange(t, height)
    ensures forall i, j :: 0 <= i < j < |rows| ==> rows[i].id > rows[j].id
  {
    var n := Reached(log, height);
    ReachedSplits(log, height);
    NewestIs(log[..n], n);
    NewestIsPermutation(log[..n]);
    forall t
      ensures t in rows <==> t in log && InRange(t, height)
    {
      assert t in rows <==> t in multiset(rows);
      assert t in log[..n] <==> t in multiset(log[..n]);
    }
  }

  /** They are all transactions at or below the height exactly when the offsets reach these. */
  lemma {:induction false} CollectedAllIff(log: seq<Tx>, height: uint32, rows: seq<Tx>)
    requires Ordered(log)
    requires rows == Newest(log[..Reached(log, height)], Reached(log, height))
    ensures (forall t :: t in rows <==> t in log && t.height <= height) <==> Reachable(log, height)
  {
    CollectedExactly(log, height, rows);
    assert forall t :: InRange(t, height) <==> t.height <= height && t.id < FCD_TXS_MAX_OFFSET - 1;
  }

  /** What `k` turns without a failure leave behind. */
  ghost function Turns(log: seq<Tx>, height: uint32, k: nat): (rows: seq<Tx>)
    ensures Block(log, rows, Reached(log, height))
  {
    if k == 0 then []
    else
      var before := Turns(log, height, k - 1);
      RoundKeepsBlock(log, height, before);
      Round(log, height, before, Reached(log, height))
  }

  lemma {:induction false} RoundKeepsBlock(log: seq<Tx>, height: uint32, rows: seq<Tx>)
    requires Block(log, rows, Reached(log, height))
    ensures Block(log, Round(log, height, rows, Reached(log, height)), Reached(log, height))
  {
    var n := Reached(log, height);
    ChunkKeepsBlock(log, rows, n, Newest(log[..n - |rows|], ChunkSize(COLLECT_LIMIT)));
  }

  /** From an empty store the loop goes on for ever exactly when every transaction of the
      account is above the height or at the top of the range of offsets. */
  lemma {:induction false} NeverFinishesIff(log: seq<Tx>, height: uint32)
    requires Ordered(log)
    ensures (forall k: nat :: !Finished(Turns(log, height, k), Reached(log, height)))
      <==> (forall t :: t in log ==> t.height > height || t.id >= FCD_TXS_MAX_OFFSET - 1)
  {
    var n := Reached(log, height);
    ReachedSplits(log, height);
    assert forall t :: InRange(t, height) <==> !(t.height > height || t.id >= FCD_TXS_MAX_OFFSET - 1);
    if n == 0 {
      assert forall k: nat :: !Finished(Turns(log, height, k), n);
    } else {
      FinishesAfter(log, height, n);
    }
  }

  /** Every turn stores something until all is stored. */
  lemma {:induction false} FinishesAfter(log: seq<Tx>, height: uint32, k: nat)
    requires k <= Reached(log, height)
    ensures |Turns(log, height, k)| >= k
  {
    if k > 0 {
      FinishesAfter(log, height, k - 1);
      var rows, n := Turns(log, height, k - 1), Reached(log, height);
      NewestIs(log[..n - |rows|], ChunkSize(COLLECT_LIMIT));
    }
  }

  /** An account whose only transaction is above the height never finishes. */
  lemma {:induction false} NewerTxNeverFinishes(k: nat)
    ensures !Finished(Turns([Tx(1, 9, "A")], 7, k), Reached([Tx(1, 9, "A")], 7))
  {
    NeverFinishesIff([Tx(1, 9, "A")], 7);
  }

  /** An account whose only transaction is at the top of the range of offsets never finishes
      either: the search misses it, and the pages stay empty. */
  lemma {:induction false} TopOffsetIsMissed(k: nat)
    ensures var log := [Tx(FCD_TXS_MAX_OFFSET - 1, 5, "A")];
            && Ordered(log) && UpTo(log, 7) == 1 && Reached(log, 7) == 0
            && Turns(log, 7, k) == [] && !Finished(Turns(log, 7, k), Reached(log, 7))
  {
    var log := [Tx(FCD_TXS_MAX_OFFSET - 1, 5, "A")];
    ReachedSplits(log, 7);
    assert !InRange(log[0], 7);
    NeverFinishesIff(log, 7);
  }

  /** A turn makes no progress without being finished exactly when nothing is stored and
      nothing can be reached. */
  lemma SpinsIff(log: seq<Tx>, height: uint32, rows: seq<Tx>, n: nat)
    requires Ordered(log) && Block(log, rows, n)
    ensures Round(log, height, rows, n) == rows && !Finished(rows, n) <==>
            rows == [] && (forall t :: t in log ==> t.height > height || t.id >= FCD_TXS_MAX_OFFSET - 1)
  {
    ReachedSplits(log, height);
    assert forall t :: InRange(t, height) <==> !(t.height > height || t.id >= FCD_TXS_MAX_OFFSET - 1);
    var from := if rows == [] then Reached(log, height) else n - |rows|;
    NewestIs(log[..from], ChunkSize(COLLECT_LIMIT));
  }
}
