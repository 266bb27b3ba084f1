/** Contiguous collection of heights into the collector DB, and the read-through store that
    answers from it (collector/collector.go, collector/height_runner.go,
    collector/repo/repository.go, parser/dex/srcstore/collector_datastore.go). */
module Collector {
  import opened Options
  import opened Results
  import Quarantine
  import Amounts

  type uint64 = x: int | 0 <= x < 0x1_0000_0000_0000_0000

  type RawTx = Quarantine.RawTx

  type PoolInfo = Amounts.PoolInfo

  /** `NotFound` is a missing row, `Unavailable` a missing table; `Failure` is anything else. */
  datatype Error = NotFound | Unavailable | Failure

  type Answer<T> = Result<T, Error>

  /** What the source holds at each height; it does not change once a height exists. */
  datatype Chain = Chain(txs: uint64 -> seq<RawTx>, pools: uint64 -> seq<PoolInfo>)

  datatype Block = Block(blockTime: int, txs: seq<RawTx>)

  /** The three collector tables, for one chain id. */
  datatype Db = Db(blocks: map<uint64, Block>, snapshots: map<uint64, seq<PoolInfo>>, synced: Option<uint64>)

  const EMPTY_DB := Db(map[], map[], None)

  /** One committed SaveHeight transaction: upserts, and a synced height that never falls. */
  function Save(db: Db, height: uint64, block: Block, pools: Option<seq<PoolInfo>>): Db {
    Db(db.blocks[height := block],
       if pools.Some? then db.snapshots[height := pools.value] else db.snapshots,
       Some(if db.synced.Some? && db.synced.value > height then db.synced.value else height))
  }

  predicate Snapshotted(interval: nat, height: uint64) {
    interval > 0 && height % interval == 0
  }

  const ZERO_TIME := 0

  function BlockOf(txs: seq<RawTx>): Block {
    Block(if |txs| > 0 then txs[0].timestamp else ZERO_TIME, txs)
  }

  /** The blocks are exactly the heights from `first` to the synced height. */
  ghost predicate Contiguous(db: Db, first: uint64) {
    match db.synced
    case None => db.blocks == map[]
    case Some(synced) =>
      first <= synced && forall h: uint64 :: h in db.blocks <==> first <= h <= synced
  }

  /** Stored rows are the source's, and snapshots are the collected multiples of the interval. */
  ghost predicate Mirrors(db: Db, chain: Chain, interval: nat) {
    && (forall h: uint64 :: h in db.blocks ==> db.blocks[h] == BlockOf(chain.txs(h)))
    && (forall h: uint64 :: h in db.snapshots <==> h in db.blocks && Snapshotted(interval, h))
    && (forall h: uint64 :: h in db.snapshots ==> db.snapshots[h] == chain.pools(h))
  }

  ghost predicate Inv(db: Db, chain: Chain, interval: nat, first: uint64) {
    Contiguous(db, first) && Mirrors(db, chain, interval)
  }

  /** What a collector writes for a height. */
  function Collected(db: Db, chain: Chain, interval: nat, height: uint64): Db {
    Save(db, height, BlockOf(chain.txs(height)),
         if Snapshotted(interval, height) then Some(chain.pools(height)) else None)
  }

  /** Saving a height keeps the range contiguous exactly when it lies in the range already or
      is the next one; a first height always starts a range of its own. */
  lemma SaveKeepsContiguous(db: Db, first: uint64, height: uint64, block: Block, pools: Option<seq<PoolInfo>>)
    requires Contiguous(db, first)
    ensures db.synced.None? ==> Contiguous(Save(db, height, block, pools), height)
    ensures db.synced.Some? ==>
      (Contiguous(Save(db, height, block, pools), first) <==> first <= height <= db.synced.value + 1)
  {
    var after := Save(db, height, block, pools);
    if db.synced.Some? {
      var s: int := db.synced.value;
      assert height in after.blocks;
      if height > s + 1 {
        var gap: uint64 := s + 1;
        assert gap !in after.blocks && first <= gap <= after.synced.value;
      }
    }
  }

  /** A height ahead of the next one leaves a gap. */
  lemma SaveLeavesGap(block: Block)
    ensures var db := Save(EMPTY_DB, 5, block, None);
            Contiguous(db, 5) && !Contiguous(Save(db, 7, block, None), 5)
  {
    SaveKeepsContiguous(Save(EMPTY_DB, 5, block, None), 5, 7, block, None);
  }

  lemma CollectedMirrors(db: Db, chain: Chain, interval: nat, height: uint64)
    requires Mirrors(db, chain, interval)
    ensures Mirrors(Collected(db, chain, interval, height), chain, interval)
  {
  }

  /** The heights a configuration collects start at 1 even when it says 0. */
  function FirstHeight(startHeight: uint64): uint64 {
    if startHeight == 0 then 1 else startHeight
  }

  /** A configuration extends what is stored: nothing is, or its start height leaves no gap. */
  ghost predicate Extends(db: Db, startHeight: uint64, first: uint64) {
    match db.synced
    case None => first == FirstHeight(startHeight)
    case Some(synced) => startHeight <= synced + 1
  }

  /** The synced height, or one below the first height when nothing is stored. */
  function LocalOf(db: Db, startHeight: uint64): (local: uint64)
    ensures db.synced.Some? ==> local == db.synced.value
    ensures db.synced.None? ==> local + 1 == FirstHeight(startHeight)
  {
    if db.synced.Some? then db.synced.value else FirstHeight(startHeight) - 1
  }

  /** Where a configuration goes on: behind what is stored, and not before its start height. */
  function NextHeight(db: Db, startHeight: uint64): (next: nat)
    ensures next > 0 && next >= startHeight
  {
    var behind := LocalOf(db, startHeight) + 1;
    if behind < startHeight then startHeight else behind
  }

  /** Nothing changed, or exactly the heights from `next` to the synced one were added. */
  ghost predicate Gained(before: Db, db: Db, next: nat) {
    db == before ||
    (db.synced.Some? && db.synced.value >= next &&
     forall h: uint64 :: h in db.blocks <==> h in before.blocks || next <= h <= db.synced.value)
  }

  /** A second run goes on where the first one ended. */
  lemma GainedMore(before: Db, mid: Db, db: Db, startHeight: uint64)
    requires Gained(before, mid, NextHeight(before, startHeight)) && Gained(mid, db, NextHeight(mid, startHeight))
    ensures Gained(before, db, NextHeight(before, startHeight))
  {
  }

  /** What a run adds leaves the range contiguous exactly when its configuration extends it. */
  lemma GainedKeepsContiguous(before: Db, db: Db, startHeight: uint64, first: uint64)
    requires Contiguous(before, first) && (before.synced.None? ==> first == FirstHeight(startHeight))
    requires Gained(before, db, NextHeight(before, startHeight)) && db != before
    ensures Contiguous(db, first) <==> Extends(before, startHeight, first)
    ensures Extends(db, startHeight, first)
  {
    if before.synced.Some? && startHeight > before.synced.value + 1 {
      var gap: uint64 := before.synced.value + 1;
      assert gap !in db.blocks && first <= gap <= db.synced.value;
    }
  }

  /** The collector DB. Reads and writes may fail without an effect; a healthy one does not
      fail. Without its tables reads report `Unavailable` and writes fail. */
  class Repository {
    var db: Db
    const migrated: bool
    const healthy: bool

    constructor (migrated: bool, healthy: bool)
      ensures db == EMPTY_DB && this.migrated == migrated && this.healthy == healthy
    {
      db, this.migrated, this.healthy := EMPTY_DB, migrated, healthy;
    }

    /** Rows exist only in tables that do. */
    predicate Valid()
      reads this
    {
      !migrated ==> db == EMPTY_DB
    }

    predicate Works() {
      migrated && healthy
    }

    method Read<T>(row: Option<T>) returns (res: Answer<T>)
      ensures res.Ok? ==> row == Some(res.value)
      ensures res.Err? && res.error == NotFound ==> migrated && row.None?
      ensures res.Err? && res.error == Unavailable ==> !migrated
      ensures migrated && row.None? && healthy ==> res == Err(NotFound)
      ensures migrated && row.Some? && healthy ==> res.Ok?
      ensures !migrated && healthy ==> res == Err(Unavailable)
    {
      if !healthy {
        if * { return Err(Failure); }
      }
      if !migrated { return Err(Unavailable); }
      if row.None? { return Err(NotFound); }
      return Ok(row.value);
    }

    method GetSyncedHeight() returns (res: Answer<uint64>)
      requires Valid()
      ensures res.Ok? ==> db.synced == Some(res.value)
      ensures res.Err? && res.error != Failure ==> db.synced == None
      ensures healthy ==> res != Err(Failure)
    {
      res := Read(db.synced);
    }

    method GetBlockTxs(height: uint64) returns (res: Answer<Block>)
      requires Valid()
      ensures res.Ok? ==> height in db.blocks && res.value == db.blocks[height]
      ensures res.Err? && res.error != Failure ==> height !in db.blocks
      ensures healthy ==> res != Err(Failure)
    {
      res := Read(if height in db.blocks then Some(db.blocks[height]) else None);
    }

    method GetPoolInfos(height: uint64) returns (res: Answer<seq<PoolInfo>>)
      requires Valid()
      ensures res.Ok? ==> height in db.snapshots && res.value == db.snapshots[height]
      ensures res.Err? && res.error != Failure ==> height !in db.snapshots
      ensures healthy ==> res != Err(Failure)
    {
      res := Read(if height in db.snapshots then Some(db.snapshots[height]) else None);
    }

    method SaveHeight(height: uint64, block: Block, pools: Option<seq<PoolInfo>>) returns (ok: bool)
      requires Valid()
      modifies this
      ensures Valid()
      ensures ok ==> db == Save(old(db), height, block, pools)
      ensures !ok ==> db == old(db)
      ensures Works() ==> ok
    {
      if !migrated { return false; }
      if !healthy {
        if * { return false; }
      }
      db := Save(db, height, block, pools);
      return true;
    }
  }

  /** The chain the collector and the parser read from. */
  class Source {
    const chain: Chain
    const healthy: bool

    constructor (chain: Chain, healthy: bool)
      ensures this.chain == chain && this.healthy == healthy
    {
      this.chain, this.healthy := chain, healthy;
    }

    method GetSourceTxs(height: uint64) returns (res: Answer<seq<RawTx>>)
      ensures res.Ok? ==> res.value == chain.txs(height)
      ensures healthy ==> res.Ok?
    {
      if !healthy {
        if * { return Err(Failure); }
      }
      return Ok(chain.txs(height));
    }

    method GetPoolInfos(height: uint64) returns (res: Answer<seq<PoolInfo>>)
      ensures res.Ok? ==> res.value == chain.pools(height)
      ensures healthy ==> res.Ok?
    {
      if !healthy {
        if * { return Err(Failure); }
      }
      return Ok(chain.pools(height));
    }
  }

  function BoundedTargetHeight(sourceHeight: uint64, untilHeight: uint64): (target: uint64)
    ensures target <= sourceHeight && (untilHeight > 0 ==> target <= untilHeight)
    ensures target == sourceHeight || (0 < untilHeight && target == untilHeight)
  {
    if untilHeight > 0 && untilHeight < sourceHeight then untilHeight else sourceHeight
  }

  predicate ReachedUntilHeight(localHeight: uint64, untilHeight: uint64) {
    untilHeight > 0 && localHeight >= untilHeight
  }

  /** `Reached`: the until height is collected. `Stopped`: the process ended while polling. */
  datatype Outcome = Reached | Stopped | Failed | InvalidRange

  /** The target of an observed source height is collected. */
  ghost predicate CaughtUp(db: Db, observed: Answer<uint64>, untilHeight: uint64, next: nat) {
    observed.Ok? && BoundedTargetHeight(observed.value, untilHeight) >= next ==>
      db.synced.Some? && db.synced.value >= BoundedTargetHeight(observed.value, untilHeight)
  }

  /** The synced height is what it was, or within an observed source height and the until height. */
  ghost predicate Bounded(before: Db, db: Db, observed: seq<Answer<uint64>>, untilHeight: uint64) {
    db.synced == before.synced || (db.synced.Some? && WithinObserved(db.synced.value, observed, untilHeight))
  }

  ghost predicate WithinObserved(height: uint64, observed: seq<Answer<uint64>>, untilHeight: uint64) {
    exists o :: o in observed && o.Ok? && height <= BoundedTargetHeight(o.value, untilHeight)
  }

  class HeightCollector {
    const repo: Repository
    const source: Source
    const startHeight: uint64
    const poolSnapshotInterval: nat

    constructor (repo: Repository, source: Source, startHeight: uint64, poolSnapshotInterval: nat)
      ensures this.repo == repo && this.source == source
      ensures this.startHeight == startHeight && this.poolSnapshotInterval == poolSnapshotInterval
    {
      this.repo, this.source := repo, source;
      this.startHeight, this.poolSnapshotInterval := startHeight, poolSnapshotInterval;
    }

    /** Everything stored is the source's. */
    ghost predicate Faithful()
      reads repo
    {
      repo.Valid() && Mirrors(repo.db, source.chain, poolSnapshotInterval)
    }

    ghost predicate Ready(first: uint64)
      reads repo
    {
      Faithful() && Contiguous(repo.db, first) && Extends(repo.db, startHeight, first)
    }

    predicate Healthy() {
      repo.Works() && source.healthy
    }

    method LocalHeight() returns (res: Answer<uint64>)
      requires repo.Valid()
      ensures res.Ok? ==> res.value == LocalOf(repo.db, startHeight)
      ensures res.Ok? && repo.db.synced.None? ==> res.value == if startHeight == 0 then 0 else startHeight - 1
      ensures repo.healthy ==> res.Ok?
    {
      res := repo.GetSyncedHeight();
      if res.Ok? { return; }
      if res.error == NotFound || res.error == Unavailable {
        if startHeight == 0 { return Ok(0); }
        return Ok(startHeight - 1);
      }
    }

    method CollectHeight(height: uint64) returns (ok: bool)
      requires repo.Valid()
      modifies repo
      ensures repo.Valid()
      ensures ok ==> repo.db == Collected(old(repo.db), source.chain, poolSnapshotInterval, height)
      ensures ok ==> height in repo.db.blocks && repo.db.blocks[height].txs == source.chain.txs(height) &&
                     repo.db.blocks[height].blockTime ==
                       if source.chain.txs(height) == [] then 0 else source.chain.txs(height)[0].timestamp
      ensures ok && poolSnapshotInterval > 0 && height % poolSnapshotInterval == 0 ==>
                height in repo.db.snapshots && repo.db.snapshots[height] == source.chain.pools(height)
      ensures ok && (poolSnapshotInterval == 0 || height % poolSnapshotInterval != 0) ==>
                repo.db.snapshots == old(repo.db.snapshots)
      ensures ok ==> repo.db.synced.Some? && repo.db.synced.value >= height &&
                     (repo.db.synced.value == height || repo.db.synced == old(repo.db.synced))
      ensures !ok ==> repo.db == old(repo.db)
      ensures Healthy() ==> ok
    {
      var txs := source.GetSourceTxs(height);
      if txs.Err? { return false; }
      var blockTime := ZERO_TIME;
      if |txs.value| > 0 { blockTime := txs.value[0].timestamp; }

      var pools: Option<seq<PoolInfo>> := None;
      if poolSnapshotInterval > 0 && height % poolSnapshotInterval == 0 {
        var infos := source.GetPoolInfos(height);
        if infos.Err? { return false; }
        pools := Some(infos.value);
      }
      ok := repo.SaveHeight(height, Block(blockTime, txs.value), pools);
    }

    /** The inner loop: every height up to the target, in order. */
    method CollectTo(nextHeight: uint64, targetHeight: uint64) returns (ok: bool)
      requires Faithful() && nextHeight == NextHeight(repo.db, startHeight) <= targetHeight < 0xFFFF_FFFF_FFFF_FFFF
      modifies repo
      ensures Faithful() && Gained(old(repo.db), repo.db, nextHeight)
      ensures repo.db == old(repo.db) || repo.db.synced.value <= targetHeight
      ensures ok ==> repo.db.synced == Some(targetHeight)
      ensures Healthy() ==> ok
    {
      var height := nextHeight;
      while height <= targetHeight
        invariant nextHeight <= height <= targetHeight + 1
        invariant Faithful() && Gained(old(repo.db), repo.db, nextHeight)
        invariant height == nextHeight ==> repo.db == old(repo.db)
        invariant height > nextHeight ==> repo.db.synced == Some(height - 1)
      {
        CollectedMirrors(repo.db, source.chain, poolSnapshotInterval, height);
        ok := CollectHeight(height);
        if !ok { return; }
        height := height + 1;
      }
      return true;
    }

    /** The polling loop; `observed` are the source heights it reads, one each round. Whatever
        fails and whenever it stops, it adds exactly the heights from the next one to the
        synced one, as the source has them, within what was observed and the until height. */
    method CollectHeights(untilHeight: uint64, observed: seq<Answer<uint64>>) returns (outcome: Outcome)
      requires Faithful()
      requires forall o :: o in observed && o.Ok? ==> o.value < 0xFFFF_FFFF_FFFF_FFFF
      modifies repo
      ensures Faithful() && Gained(old(repo.db), repo.db, NextHeight(old(repo.db), startHeight))
      ensures Bounded(old(repo.db), repo.db, observed, untilHeight)
      ensures outcome.InvalidRange? <==> 0 < untilHeight < startHeight
      ensures outcome.InvalidRange? ==> repo.db == old(repo.db)
      ensures outcome.Reached? ==> untilHeight > 0 && repo.db.synced.Some? && repo.db.synced.value >= untilHeight
      ensures outcome.Stopped? ==>
                forall o :: o in observed ==> CaughtUp(repo.db, o, untilHeight, NextHeight(old(repo.db), startHeight))
      ensures Healthy() && (forall o :: o in observed ==> o.Ok?) ==> !outcome.Failed?
    {
      if untilHeight > 0 && untilHeight < startHeight { return InvalidRange; }
      ghost var next := NextHeight(repo.db, startHeight);
      var round := 0;
      while round < |observed|
        invariant 0 <= round <= |observed|
        invariant Faithful() && Gained(old(repo.db), repo.db, next)
        invariant Bounded(old(repo.db), repo.db, observed, untilHeight)
        invariant forall i :: 0 <= i < round ==> CaughtUp(repo.db, observed[i], untilHeight, next)
      {
        var localHeight := LocalHeight();
        if localHeight.Err? { return Failed; }
        var srcHeight := observed[round];
        assert srcHeight in observed;
        if srcHeight.Err? { return Failed; }

        var targetHeight := BoundedTargetHeight(srcHeight.value, untilHeight);
        if localHeight.value >= targetHeight {
          if ReachedUntilHeight(localHeight.value, untilHeight) { return Reached; }
        } else {
          var nextHeight := localHeight.value + 1;
          if nextHeight < startHeight { nextHeight := startHeight; }
          if nextHeight <= targetHeight {
            ghost var before := repo.db;
            var ok := CollectTo(nextHeight, targetHeight);
            GainedMore(old(repo.db), before, repo.db, startHeight);
            assert repo.db != before ==> WithinObserved(repo.db.synced.value, observed, untilHeight);
            if !ok { return Failed; }
          }
        }
        round := round + 1;
      }
      return Stopped;
    }
  }

  predicate ShouldFallback(error: Error) {
    error == NotFound || error == Unavailable
  }

  /** Reads the collector DB first and the source where nothing is collected. Over a DB that
      a collector filled, it cannot be told apart from the source. */
  class FallbackStore {
    const repo: Repository
    const fallback: Source

    constructor (repo: Repository, fallback: Source)
      ensures this.repo == repo && this.fallback == fallback
    {
      this.repo, this.fallback := repo, fallback;
    }

    /** Every height between the first and the reported one has its block in the DB, unless
        the DB is empty and the source answers; `source` is what it would say. */
    method GetSourceSyncedHeight(source: Answer<uint64>, ghost interval: nat, ghost first: uint64)
      returns (res: Answer<uint64>)
      requires repo.Valid() && Inv(repo.db, fallback.chain, interval, first)
      ensures repo.db.synced.None? && repo.healthy ==> res == source
      ensures repo.db.synced.Some? && res.Ok? ==>
        forall h: uint64 :: first <= h ==> (h <= res.value <==> h in repo.db.blocks)
      ensures repo.healthy && source.Ok? ==> res.Ok?
    {
      res := repo.GetSyncedHeight();
      if res.Ok? { return; }
      if ShouldFallback(res.error) { return source; }
    }

    method GetSourceTxs(height: uint64, ghost interval: nat, ghost first: uint64) returns (res: Answer<seq<RawTx>>)
      requires repo.Valid() && Inv(repo.db, fallback.chain, interval, first)
      ensures res.Ok? ==> res.value == fallback.chain.txs(height)
      ensures repo.healthy && (height in repo.db.blocks || fallback.healthy) ==> res.Ok?
    {
      var block := repo.GetBlockTxs(height);
      if block.Ok? { return Ok(block.value.txs); }
      if ShouldFallback(block.error) {
        res := fallback.GetSourceTxs(height);
        return;
      }
      return Err(block.error);
    }

    method GetPoolInfos(height: uint64, ghost interval: nat, ghost first: uint64)
      returns (res: Answer<seq<PoolInfo>>)
      requires repo.Valid() && Inv(repo.db, fallback.chain, interval, first)
      ensures res.Ok? ==> res.value == fallback.chain.pools(height)
      ensures repo.healthy && (height in repo.db.snapshots || fallback.healthy) ==> res.Ok?
    {
      res := repo.GetPoolInfos(height);
      if res.Ok? { return; }
      if ShouldFallback(res.error) {
        res := fallback.GetPoolInfos(height);
      }
    }
  }

  /** Runs of the collector, each with its own until height and source heights, over a DB
      that starts empty: after any number of them, however they ended, the DB holds one
      contiguous range that mirrors the source, and the read-through store agrees with it. */
  method RunForever(collector: HeightCollector, runs: seq<(uint64, seq<Answer<uint64>>)>)
    requires collector.repo.db == EMPTY_DB
    requires forall r, o :: r in runs && o in r.1 && o.Ok? ==> o.value < 0xFFFF_FFFF_FFFF_FFFF
    modifies collector.repo
    ensures collector.Ready(FirstHeight(collector.startHeight))
  {
    ghost var first := FirstHeight(collector.startHeight);
    for i := 0 to |runs|
      invariant collector.Ready(first)
    {
      assert runs[i] in runs;
      ghost var before := collector.repo.db;
      var _ := collector.CollectHeights(runs[i].0, runs[i].1);
      if collector.repo.db != before {
        GainedKeepsContiguous(before, collector.repo.db, collector.startHeight, first);
      }
    }
  }

  /** An undisturbed run to a height. */
  method RunTo(repo: Repository, source: Source, startHeight: uint64, top: uint64)
    requires repo.Works() && source.healthy && repo.Valid() && Mirrors(repo.db, source.chain, 0)
    requires 0 < startHeight <= NextHeight(repo.db, startHeight) <= top < 0xFFFF_FFFF_FFFF_FFFF
    modifies repo
    ensures repo.Valid() && Mirrors(repo.db, source.chain, 0)
    ensures repo.db.synced == Some(top) && Gained(old(repo.db), repo.db, NextHeight(old(repo.db), startHeight))
  {
    var collector := new HeightCollector(repo, source, startHeight, 0);
    var observed: seq<Answer<uint64>> := [Ok(top)];
    assert observed[0] in observed;
    var outcome := collector.CollectHeights(top, observed);
    assert outcome.Stopped? ==> CaughtUp(repo.db, observed[0], top, NextHeight(old(repo.db), startHeight));
  }

  /** A run from height 5, and one whose start height was raised to 7: height 6 is missing. */
  method RaisedStartLeavesGap(chain: Chain) returns (repo: Repository)
    ensures fresh(repo) && repo.db.synced == Some(7)
    ensures 5 in repo.db.blocks && 6 !in repo.db.blocks && 7 in repo.db.blocks && !Contiguous(repo.db, 5)
  {
    repo := new Repository(true, true);
    var source := new Source(chain, true);
    RunTo(repo, source, 5, 5);
    assert forall h: uint64 :: h in repo.db.blocks <==> h == 5;
    RunTo(repo, source, 7, 7);
  }
}
