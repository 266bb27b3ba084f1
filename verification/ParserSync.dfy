/** The sync loop of the parser and its database: heights committed one by one, ambiguous
    transactions quarantined and replayed (parser/dex/dex.go, parser/dex/repo/repository.go). */
module ParserSync {
  import opened Quarantine

  /** The rows that one raw transaction's output becomes. */
  datatype Batch = Batch(hash: string, height: nat, txs: seq<ParsedTx>)

  datatype Status = Pending | Resolved

  datatype QuarantineRow = QuarantineRow(quarantine: ParseQuarantine, status: Status)

  /** The persisted state: synced height, parsed rows, and quarantines keyed by hash. */
  datatype Db = Db(synced: nat, rows: seq<Batch>, quarantines: map<string, QuarantineRow>)

  // ---- the source ----

  /** The chain: the transactions of each height, and which outputs parsing one of them may
      give (the parsers learn pairs as they go, so there can be more than one). */
  datatype Chain = Chain(txs: nat -> seq<RawTx>, output: (RawTx, nat, seq<ParsedTx>) -> bool)

  ghost predicate UniqueHashes(chain: Chain) {
    forall h, i, k, j :: 0 <= i < |chain.txs(h)| && 0 <= j < |chain.txs(k)| ==>
      chain.txs(h)[i].hash == chain.txs(k)[j].hash ==> h == k && i == j
  }

  ghost predicate InChain(chain: Chain, height: nat, tx: RawTx) {
    tx in chain.txs(height)
  }

  /** Stored rows are an output of the transaction they are stored for. */
  ghost predicate BatchSound(chain: Chain, b: Batch) {
    exists i :: 0 <= i < |chain.txs(b.height)| && chain.txs(b.height)[i].hash == b.hash &&
      chain.output(chain.txs(b.height)[i], b.height, b.txs)
  }

  // ---- accounting ----

  /** How many times the output of a transaction was stored. */
  function Stored(rows: seq<Batch>, hash: string): nat {
    if rows == [] then 0 else Stored(rows[..|rows| - 1], hash) + if rows[|rows| - 1].hash == hash then 1 else 0
  }

  predicate PendingFull(quarantines: map<string, QuarantineRow>, hash: string) {
    hash in quarantines && quarantines[hash].status == Pending &&
    !IsPartialQuarantineStage(quarantines[hash].quarantine.stage)
  }

  /** Output stored exactly once, or held back by a pending full quarantine, never both. */
  predicate AccountedOnce(db: Db, hash: string) {
    Stored(db.rows, hash) == if PendingFull(db.quarantines, hash) then 0 else 1
  }

  /** A quarantine row belongs to a synced transaction that creates no pair, and holds it. */
  ghost predicate RowSound(db: Db, chain: Chain, start: nat, hash: string)
    requires hash in db.quarantines
  {
    var q := db.quarantines[hash].quarantine;
    && q.hash == hash && q.rawTx.hash == hash && !ContainsCreatePair(q.rawTx)
    && start < q.height <= db.synced && InChain(chain, q.height, q.rawTx)
  }

  ghost predicate Known(chain: Chain, lo: nat, hi: nat, hash: string) {
    exists h, i :: lo < h <= hi && 0 <= i < |chain.txs(h)| && chain.txs(h)[i].hash == hash
  }

  /** The accounting from the height `start` on. */
  ghost predicate Accounted(db: Db, chain: Chain, start: nat) {
    && start <= db.synced
    && (forall h, i :: start < h <= db.synced && 0 <= i < |chain.txs(h)| ==> AccountedOnce(db, chain.txs(h)[i].hash))
    && (forall hash :: Stored(db.rows, hash) > 0 || hash in db.quarantines ==> Known(chain, start, db.synced, hash))
    && (forall hash :: hash in db.quarantines ==> RowSound(db, chain, start, hash))
    && (forall b :: b in db.rows ==> BatchSound(chain, b))
  }

  // ---- transactions of the repository, on values ----

  function Upserts(quarantines: map<string, QuarantineRow>, qs: seq<ParseQuarantine>): map<string, QuarantineRow> {
    if qs == [] then quarantines else
      var q := qs[|qs| - 1];
      Upserts(quarantines, qs[..|qs| - 1])[q.hash := QuarantineRow(q, Pending)]
  }

  /** The synced height moves only from the height the caller read. */
  function InsertDb(db: Db, srcHeight: nat, targetHeight: nat, batches: seq<Batch>, qs: seq<ParseQuarantine>): Db {
    Db(if db.synced == srcHeight then targetHeight else db.synced, db.rows + batches, Upserts(db.quarantines, qs))
  }

  function ResolveDb(db: Db, hash: string, height: nat, txs: seq<ParsedTx>): Db
    requires hash in db.quarantines
  {
    db.(rows := db.rows + [Batch(hash, height, txs)],
        quarantines := db.quarantines[hash := db.quarantines[hash].(status := Resolved)])
  }

  // ---- how one height is sorted into rows and quarantines ----

  /** `batches` and `qs` are what the loop over `txs` collected: each transaction gave its
      output, its output and a partial quarantine, or a full quarantine alone. */
  ghost predicate Collected(chain: Chain, txs: seq<RawTx>, height: nat, batches: seq<Batch>, qs: seq<ParseQuarantine>) {
    if txs == [] then batches == [] && qs == [] else
      var n, tx := |txs| - 1, txs[|txs| - 1];
      || (batches != [] && IsOutputOf(chain, batches[|batches| - 1], tx, height) &&
          Collected(chain, txs[..n], height, batches[..|batches| - 1], qs))
      || (batches != [] && IsOutputOf(chain, batches[|batches| - 1], tx, height) &&
          qs != [] && IsPartialOf(qs[|qs| - 1], tx, height) &&
          Collected(chain, txs[..n], height, batches[..|batches| - 1], qs[..|qs| - 1]))
      || (qs != [] && IsFullOf(qs[|qs| - 1], tx, height) && Collected(chain, txs[..n], height, batches, qs[..|qs| - 1]))
  }

  predicate IsOutputOf(chain: Chain, b: Batch, tx: RawTx, height: nat) {
    b.hash == tx.hash && b.height == height && chain.output(tx, height, b.txs)
  }

  lemma {:induction false} CollectedSound(chain: Chain, txs: seq<RawTx>, height: nat, batches: seq<Batch>,
                                          qs: seq<ParseQuarantine>)
    requires Collected(chain, txs, height, batches, qs) && txs <= chain.txs(height)
    ensures forall b :: b in batches ==> BatchSound(chain, b)
  {
    if txs != [] {
      var n, tx := |txs| - 1, txs[|txs| - 1];
      if batches != [] && IsOutputOf(chain, batches[|batches| - 1], tx, height) &&
          Collected(chain, txs[..n], height, batches[..|batches| - 1], qs) {
        CollectedSound(chain, txs[..n], height, batches[..|batches| - 1], qs);
        LastBatchSound(chain, tx, n, height, batches);
      } else if qs != [] && IsFullOf(qs[|qs| - 1], tx, height) &&
          Collected(chain, txs[..n], height, batches, qs[..|qs| - 1]) {
        CollectedSound(chain, txs[..n], height, batches, qs[..|qs| - 1]);
      } else {
        CollectedSound(chain, txs[..n], height, batches[..|batches| - 1], qs[..|qs| - 1]);
        LastBatchSound(chain, tx, n, height, batches);
      }
    }
  }

  lemma LastBatchSound(chain: Chain, tx: RawTx, n: nat, height: nat, batches: seq<Batch>)
    requires batches != [] && IsOutputOf(chain, batches[|batches| - 1], tx, height)
    requires n < |chain.txs(height)| && chain.txs(height)[n] == tx
    requires forall b :: b in batches[..|batches| - 1] ==> BatchSound(chain, b)
    ensures forall b :: b in batches ==> BatchSound(chain, b)
  {
    assert chain.txs(height)[n].hash == batches[|batches| - 1].hash;
  }

  ghost predicate IsFullOf(q: ParseQuarantine, tx: RawTx, height: nat) {
    && q.hash == tx.hash && q.height == height && q.rawTx == tx
    && !IsPartialQuarantineStage(q.stage) && !ContainsCreatePair(tx)
  }

  ghost predicate DistinctHashes(txs: seq<RawTx>) {
    forall i, j :: 0 <= i < j < |txs| ==> txs[i].hash != txs[j].hash
  }

  predicate HasHash(txs: seq<RawTx>, hash: string) {
    exists i :: 0 <= i < |txs| && txs[i].hash == hash
  }

  lemma {:induction false} StoredConcat(a: seq<Batch>, b: seq<Batch>, hash: string)
    ensures Stored(a + b, hash) == Stored(a, hash) + Stored(b, hash)
  {
    if b == [] {
      assert a + b == a;
    } else {
      var n := |b| - 1;
      assert (a + b)[..|a + b| - 1] == a + b[..n];
      StoredConcat(a, b[..n], hash);
    }
  }

  /** What collecting one height does to the account of any hash. */
  lemma {:induction false} CollectedAccount(chain: Chain, txs: seq<RawTx>, height: nat, batches: seq<Batch>,
                                            qs: seq<ParseQuarantine>, was: map<string, QuarantineRow>, hash: string)
    requires Collected(chain, txs, height, batches, qs) && DistinctHashes(txs)
    ensures !HasHash(txs, hash) ==>
              && Stored(batches, hash) == 0
              && (hash in Upserts(was, qs) <==> hash in was)
              && (hash in was ==> Upserts(was, qs)[hash] == was[hash])
    ensures HasHash(txs, hash) && hash !in was ==>
              Stored(batches, hash) == if PendingFull(Upserts(was, qs), hash) then 0 else 1
    ensures HasHash(txs, hash) && hash in Upserts(was, qs) && hash !in was ==>
              var q := Upserts(was, qs)[hash].quarantine;
              q.hash == hash && q.rawTx in txs && q.rawTx.hash == hash && q.height == height &&
                  !ContainsCreatePair(q.rawTx)
  {
    if txs != [] {
      var n, tx := |txs| - 1, txs[|txs| - 1];
      assert HasHash(txs, hash) <==> HasHash(txs[..n], hash) || tx.hash == hash;
      assert !HasHash(txs[..n], tx.hash);
      if batches != [] && IsOutputOf(chain, batches[|batches| - 1], tx, height) &&
          Collected(chain, txs[..n], height, batches[..|batches| - 1], qs) {
        CollectedAccount(chain, txs[..n], height, batches[..|batches| - 1], qs, was, hash);
      } else if batches != [] && IsOutputOf(chain, batches[|batches| - 1], tx, height) && qs != [] &&
          IsPartialOf(qs[|qs| - 1], tx, height) &&
          Collected(chain, txs[..n], height, batches[..|batches| - 1], qs[..|qs| - 1]) {
        CollectedAccount(chain, txs[..n], height, batches[..|batches| - 1], qs[..|qs| - 1], was, hash);
      } else {
        CollectedAccount(chain, txs[..n], height, batches, qs[..|qs| - 1], was, hash);
      }
    }
  }

  /** Committing the next height keeps the accounts. */
  lemma InsertKeeps(db: Db, chain: Chain, start: nat, batches: seq<Batch>, qs: seq<ParseQuarantine>)
    requires UniqueHashes(chain) && Accounted(db, chain, start)
    requires Collected(chain, chain.txs(db.synced + 1), db.synced + 1, batches, qs)
    ensures Accounted(InsertDb(db, db.synced, db.synced + 1, batches, qs), chain, start)
  {
    var next := db.synced + 1;
    var txs, after := chain.txs(next), InsertDb(db, db.synced, db.synced + 1, batches, qs);
    assert DistinctHashes(txs);
    CollectedSound(chain, txs, next, batches, qs);
    forall hash ensures Stored(after.rows, hash) == Stored(db.rows, hash) + Stored(batches, hash) {
      StoredConcat(db.rows, batches, hash);
    }
    forall hash: string | HasHash(txs, hash) ensures !Known(chain, start, db.synced, hash) { }
    forall h, i | start < h <= next && 0 <= i < |chain.txs(h)| ensures AccountedOnce(after, chain.txs(h)[i].hash) {
      var hash := chain.txs(h)[i].hash;
      CollectedAccount(chain, txs, next, batches, qs, db.quarantines, hash);
      if h == next {
        assert HasHash(txs, hash);
        assert Stored(db.rows, hash) == 0;
      } else {
        assert !HasHash(txs, hash);
        assert AccountedOnce(db, hash);
      }
    }
    forall hash | Stored(after.rows, hash) > 0 || hash in after.quarantines
      ensures Known(chain, start, next, hash)
    {
      CollectedAccount(chain, txs, next, batches, qs, db.quarantines, hash);
      if !HasHash(txs, hash) { assert Known(chain, start, db.synced, hash); }
    }
    forall hash | hash in after.quarantines ensures RowSound(after, chain, start, hash) {
      CollectedAccount(chain, txs, next, batches, qs, db.quarantines, hash);
      if !HasHash(txs, hash) { assert RowSound(db, chain, start, hash); }
    }
  }

  /** Resolving a pending full quarantine moves its transaction from held back to stored. */
  lemma ResolveKeeps(db: Db, chain: Chain, start: nat, hash: string, height: nat, txs: seq<ParsedTx>)
    requires Accounted(db, chain, start) && PendingFull(db.quarantines, hash)
    requires var q := db.quarantines[hash].quarantine; height == q.height && chain.output(q.rawTx, height, txs)
    ensures Accounted(ResolveDb(db, hash, height, txs), chain, start)
  {
    var after := ResolveDb(db, hash, height, txs);
    forall other ensures Stored(after.rows, other) == Stored(db.rows, other) + if other == hash then 1 else 0 {
      assert after.rows[..|after.rows| - 1] == db.rows;
    }
    forall h, i | start < h <= db.synced && 0 <= i < |chain.txs(h)| ensures AccountedOnce(after, chain.txs(h)[i].hash) {
      assert AccountedOnce(db, chain.txs(h)[i].hash);
    }
    assert Known(chain, start, db.synced, hash);
    forall other | other in after.quarantines ensures RowSound(after, chain, start, other) {
      assert RowSound(db, chain, start, other);
    }
  }

  /** A database that has stored nothing yet starts the accounts at its synced height. */
  lemma FreshDbAccounted(chain: Chain, synced: nat)
    ensures Accounted(Db(synced, [], map[]), chain, synced)
  {
  }

  lemma QuarantinedCreatesNoPair(db: Db, chain: Chain, start: nat, h: nat, i: nat)
    requires Accounted(db, chain, start) && UniqueHashes(chain)
    requires i < |chain.txs(h)| && chain.txs(h)[i].hash in db.quarantines
    ensures !ContainsCreatePair(chain.txs(h)[i])
  {
    var hash := chain.txs(h)[i].hash;
    assert RowSound(db, chain, start, hash);
    var q := db.quarantines[hash].quarantine;
    var j :| 0 <= j < |chain.txs(q.height)| && chain.txs(q.height)[j] == q.rawTx;
    assert chain.txs(q.height)[j].hash == chain.txs(h)[i].hash;
  }

  /** A transaction that creates a pair is never held back: once its height is synced, its
      output is stored exactly once. */
  lemma CreatePairNeverHeldBack(db: Db, chain: Chain, start: nat, h: nat, i: nat)
    requires Accounted(db, chain, start) && UniqueHashes(chain)
    requires start < h <= db.synced && i < |chain.txs(h)| && ContainsCreatePair(chain.txs(h)[i])
    ensures Stored(db.rows, chain.txs(h)[i].hash) == 1
  {
    var hash := chain.txs(h)[i].hash;
    assert AccountedOnce(db, hash);
    if hash in db.quarantines { QuarantinedCreatesNoPair(db, chain, start, h, i); }
  }

  predicate RowHolds(quarantines: map<string, QuarantineRow>, q: ParseQuarantine) {
    q.hash in quarantines && quarantines[q.hash].quarantine == q
  }

  ghost predicate RowsHold(quarantines: map<string, QuarantineRow>, qs: seq<ParseQuarantine>) {
    forall q :: q in qs ==> RowHolds(quarantines, q)
  }

  predicate KeyedByHash(quarantines: map<string, QuarantineRow>) {
    forall hash :: hash in quarantines ==> quarantines[hash].quarantine.hash == hash
  }

  ghost predicate ArePending(quarantines: map<string, QuarantineRow>, qs: seq<ParseQuarantine>) {
    forall q :: q in qs ==> exists hash :: hash in quarantines && quarantines[hash] == QuarantineRow(q, Pending)
  }

  lemma AccountedKeys(db: Db, chain: Chain, start: nat)
    requires Accounted(db, chain, start)
    ensures KeyedByHash(db.quarantines)
  {
    forall hash | hash in db.quarantines ensures db.quarantines[hash].quarantine.hash == hash {
      assert RowSound(db, chain, start, hash);
    }
  }

  lemma PendingRowsHold(db: Db, chain: Chain, start: nat, qs: seq<ParseQuarantine>)
    requires Accounted(db, chain, start) && ArePending(db.quarantines, qs)
    ensures RowsHold(db.quarantines, qs)
    ensures forall q :: q in qs ==> db.quarantines[q.hash].status == Pending
  {
    forall q | q in qs ensures RowHolds(db.quarantines, q) && db.quarantines[q.hash].status == Pending {
      var hash :| hash in db.quarantines && db.quarantines[hash] == QuarantineRow(q, Pending);
      assert RowSound(db, chain, start, hash);
    }
  }

  /** A row put behind those of its height and below. */
  function ByHeight(qs: seq<ParseQuarantine>, q: ParseQuarantine): seq<ParseQuarantine> {
    if qs == [] || qs[|qs| - 1].height <= q.height then qs + [q]
    else ByHeight(qs[..|qs| - 1], q) + [qs[|qs| - 1]]
  }

  /** Rows by height, each hash once. */
  predicate Listed(qs: seq<ParseQuarantine>) {
    forall i, j :: 0 <= i < j < |qs| ==> Apart(qs[i], qs[j])
  }

  predicate Apart(a: ParseQuarantine, b: ParseQuarantine) {
    a.height <= b.height && a.hash != b.hash
  }

  lemma {:induction false} ByHeightAdds(qs: seq<ParseQuarantine>, q: ParseQuarantine)
    ensures forall p :: p in ByHeight(qs, q) <==> p in qs || p == q
  {
    if qs != [] && qs[|qs| - 1].height > q.height {
      var n := |qs| - 1;
      ByHeightAdds(qs[..n], q);
      assert qs == qs[..n] + [qs[n]];
    }
  }

  lemma {:induction false} ByHeightListed(qs: seq<ParseQuarantine>, q: ParseQuarantine)
    requires Listed(qs) && forall p :: p in qs ==> p.hash != q.hash
    ensures Listed(ByHeight(qs, q))
  {
    if qs == [] || qs[|qs| - 1].height <= q.height {
      forall i | 0 <= i < |qs| ensures Apart(qs[i], q) {
        if i < |qs| - 1 { assert Apart(qs[i], qs[|qs| - 1]); }
      }
    } else {
      var n := |qs| - 1;
      ByHeightListed(qs[..n], q);
      ByHeightAdds(qs[..n], q);
      var before := ByHeight(qs[..n], q);
      forall i | 0 <= i < |before| ensures Apart(before[i], qs[n]) { assert before[i] in before; }
    }
  }

  // ---- the code ----

  /** The database.  `history` lists the states it committed, so that what holds of all of
      them holds wherever the process may have died. */
  class Repo {
    var db: Db
    ghost var history: seq<Db>

    ghost predicate AlwaysAccounted(chain: Chain, start: nat)
      reads this
    {
      Accounted(db, chain, start) && forall i :: 0 <= i < |history| ==> Accounted(history[i], chain, start)
    }

    constructor (db: Db)
      ensures this.db == db && history == [db]
    {
      this.db, history := db, [db];
    }

    /** One transaction: all of it or nothing. */
    method Insert(srcHeight: nat, targetHeight: nat, batches: seq<Batch>, qs: seq<ParseQuarantine>, works: bool)
      returns (ok: bool)
      modifies this
      ensures ok == works
      ensures db == if ok then InsertDb(old(db), srcHeight, targetHeight, batches, qs) else old(db)
      ensures history == if ok then old(history) + [db] else old(history)
    {
      if !works {
        return false;
      }
      var quarantines := db.quarantines;
      for i := 0 to |qs|
        invariant quarantines == Upserts(db.quarantines, qs[..i])
      {
        assert qs[..i + 1][..i] == qs[..i];
        quarantines := quarantines[qs[i].hash := QuarantineRow(qs[i], Pending)];
      }
      assert qs[..|qs|] == qs;
      db := Db(if db.synced == srcHeight then targetHeight else db.synced, db.rows + batches, quarantines);
      history := history + [db];
      return true;
    }

    /** One transaction, rolled back unless exactly one pending row was resolved. */
    method ResolveParseQuarantine(hash: string, height: nat, txs: seq<ParsedTx>, works: bool) returns (ok: bool)
      modifies this
      ensures ok <==> works && hash in old(db).quarantines && old(db).quarantines[hash].status == Pending
      ensures db == if ok then ResolveDb(old(db), hash, height, txs) else old(db)
      ensures history == if ok then old(history) + [db] else old(history)
    {
      if !works || hash !in db.quarantines || db.quarantines[hash].status != Pending {
        return false;
      }
      db := ResolveDb(db, hash, height, txs);
      history := history + [db];
      return true;
    }

    /** All pending rows, each once, by height; the order within a height is left open. */
    method PendingParseQuarantines() returns (pending: seq<ParseQuarantine>)
      requires KeyedByHash(db.quarantines)
      ensures ArePending(db.quarantines, pending)
      ensures forall hash :: IsPending(db.quarantines, hash) ==> db.quarantines[hash].quarantine in pending
      ensures Listed(pending)
    {
      pending := [];
      var rest := db.quarantines.Keys;
      while rest != {}
        invariant rest <= db.quarantines.Keys
        invariant ArePending(db.quarantines, pending)
        invariant forall q :: q in pending ==> q.hash !in rest
        invariant forall hash :: hash in db.quarantines && hash !in rest && db.quarantines[hash].status == Pending ==>
          db.quarantines[hash].quarantine in pending
        invariant Listed(pending)
        decreases rest
      {
        var hash :| hash in rest;
        rest := rest - {hash};
        if db.quarantines[hash].status == Pending {
          assert db.quarantines[hash] == QuarantineRow(db.quarantines[hash].quarantine, Pending);
          assert db.quarantines[hash].quarantine.hash == hash;
          ByHeightAdds(pending, db.quarantines[hash].quarantine);
          ByHeightListed(pending, db.quarantines[hash].quarantine);
          pending := ByHeight(pending, db.quarantines[hash].quarantine);
        }
      }
    }
  }

  datatype RetryMode = Disabled | Startup | EveryRun

  datatype Call = TokenExceptions | PendingQuarantines | UpdateParsers | Resolve | SyncedHeight | SourceHeight |
    SourceTxs | PoolInfos | InsertHeight

  /** The world of one run: what each attempt to parse gives, which calls succeed, and at which
      heights a failure only means that the source is still indexing. */
  datatype Env = Env(parse: (RawTx, nat, nat) -> ParseOutcome, works: (Call, nat) -> bool, indexing: nat -> bool)

  /** ParseTxs gives outputs of its transaction, and builds partial outcomes with the recorder. */
  ghost predicate EnvSound(env: Env, chain: Chain) {
    forall tx, h, n ::
      && (env.parse(tx, h, n).Partial? ==> IsPartialOf(env.parse(tx, h, n).quarantine, tx, h))
      && (!env.parse(tx, h, n).Failed? ==> chain.output(tx, h, env.parse(tx, h, n).txs))
  }

  /** An attempt that leaves its transaction quarantined when it is replayed. */
  predicate Unclear(outcome: ParseOutcome) {
    outcome.Partial? || (outcome.Failed? && outcome.err.Ambiguous?)
  }

  /** An outcome that stops the run that parses the transaction. */
  ghost predicate Rejects(outcome: ParseOutcome, tx: RawTx) {
    outcome.Failed? && (!outcome.err.Ambiguous? || ContainsCreatePair(tx))
  }

  ghost predicate RejectsAt(env: Env, tx: RawTx, height: nat, n: nat) {
    Rejects(env.parse(tx, height, n), tx)
  }

  /** No call fails and no transaction is rejected. */
  ghost predicate Smooth(env: Env) {
    (forall c, n :: env.works(c, n)) && (forall tx, h, n :: !RejectsAt(env, tx, h, n))
  }

  /** Every row still pending in full is one of `qs`, and its replay, if it is among the
      first `n`, was unclear. */
  ghost predicate Replayed(env: Env, quarantines: map<string, QuarantineRow>, qs: seq<ParseQuarantine>, n: nat) {
    forall hash :: PendingFull(quarantines, hash) ==>
      exists i :: 0 <= i < |qs| && qs[i] == quarantines[hash].quarantine && (i < n ==> UnclearAt(env, qs[i], i))
  }

  ghost predicate UnclearAt(env: Env, q: ParseQuarantine, n: nat) {
    Unclear(env.parse(q.rawTx, q.height, n))
  }

  /** At most the row of one hash was resolved. */
  predicate OnlyResolves(before: map<string, QuarantineRow>, after: map<string, QuarantineRow>, hash: string) {
    after == before || (hash in before && after == before[hash := before[hash].(status := Resolved)])
  }

  lemma ReplayedMore(env: Env, before: map<string, QuarantineRow>, after: map<string, QuarantineRow>,
                     qs: seq<ParseQuarantine>, n: nat)
    requires n < |qs| && Replayed(env, before, qs, n) && OnlyResolves(before, after, qs[n].hash)
    requires RowHolds(before, qs[n]) && KeyedByHash(before)
    requires PendingFull(after, qs[n].hash) ==> UnclearAt(env, qs[n], n)
    ensures Replayed(env, after, qs, n + 1)
  {
    forall hash | PendingFull(after, hash)
      ensures exists i :: 0 <= i < |qs| && qs[i] == after[hash].quarantine && (i < n + 1 ==> UnclearAt(env, qs[i], i))
    {
      assert PendingFull(before, hash);
      var i :| 0 <= i < |qs| && qs[i] == before[hash].quarantine && (i < n ==> UnclearAt(env, qs[i], i));
      if i == n { assert hash == qs[n].hash; }
    }
  }

  /** The loop over the pending rows `qs` before its round `n`. */
  ghost predicate Retrying(env: Env, quarantines: map<string, QuarantineRow>, qs: seq<ParseQuarantine>, n: nat) {
    && n <= |qs| && KeyedByHash(quarantines) && RowsHold(quarantines, qs) && Replayed(env, quarantines, qs, n)
    && (forall i, j :: 0 <= i < j < |qs| ==> qs[i].hash != qs[j].hash)
    && (forall i :: n <= i < |qs| ==> IsPending(quarantines, qs[i].hash))
  }

  predicate IsPending(quarantines: map<string, QuarantineRow>, hash: string) {
    hash in quarantines && quarantines[hash].status == Pending
  }

  lemma RetryStarts(env: Env, db: Db, chain: Chain, start: nat, qs: seq<ParseQuarantine>)
    requires Accounted(db, chain, start) && ArePending(db.quarantines, qs)
    requires forall hash :: IsPending(db.quarantines, hash) ==> db.quarantines[hash].quarantine in qs
    requires Listed(qs)
    ensures Retrying(env, db.quarantines, qs, 0)
  {
    AccountedKeys(db, chain, start);
    PendingRowsHold(db, chain, start, qs);
    forall hash | PendingFull(db.quarantines, hash)
      ensures exists i :: 0 <= i < |qs| && qs[i] == db.quarantines[hash].quarantine
    {
      assert IsPending(db.quarantines, hash);
    }
    assert forall i :: 0 <= i < |qs| ==> qs[i] in qs;
    assert forall i, j :: 0 <= i < j < |qs| ==> Apart(qs[i], qs[j]);
  }

  lemma RetryNext(env: Env, quarantines: map<string, QuarantineRow>, qs: seq<ParseQuarantine>, n: nat)
    requires Retrying(env, quarantines, qs, n) && n < |qs|
    ensures RowHolds(quarantines, qs[n]) && IsPending(quarantines, qs[n].hash)
  {
    assert qs[n] in qs;
  }

  lemma RetryStep(env: Env, before: map<string, QuarantineRow>, after: map<string, QuarantineRow>,
                  qs: seq<ParseQuarantine>, n: nat)
    requires Retrying(env, before, qs, n) && n < |qs| && OnlyResolves(before, after, qs[n].hash)
    requires PendingFull(after, qs[n].hash) ==> UnclearAt(env, qs[n], n)
    ensures Retrying(env, after, qs, n + 1)
  {
    RetryNext(env, before, qs, n);
    ReplayedMore(env, before, after, qs, n);
    assert forall i :: 0 <= i < |qs| ==> RowHolds(before, qs[i]) ==> RowHolds(after, qs[i]);
    assert forall i :: n + 1 <= i < |qs| ==> qs[n].hash != qs[i].hash && IsPending(before, qs[i].hash);
  }

  lemma RetryEnds(env: Env, quarantines: map<string, QuarantineRow>, qs: seq<ParseQuarantine>)
    requires Retrying(env, quarantines, qs, |qs|)
    ensures forall hash :: PendingFull(quarantines, hash) ==>
      exists n: nat :: UnclearAt(env, quarantines[hash].quarantine, n)
  {
  }

  /** `SourceBehind`: the source is still indexing. `Crashed`: the process stops on a division by
      zero, as the configuration accepts a snapshot interval of 0. */
  datatype RunResult = Done | SourceBehind | Crashed | Error(text: string)

  /** The output of a transaction, a full quarantine, or an output with a partial quarantine. */
  ghost predicate IsResultOf(chain: Chain, tx: RawTx, height: nat, batch: seq<Batch>,
                             quarantine: seq<ParseQuarantine>) {
    || (|batch| == 1 && IsOutputOf(chain, batch[0], tx, height) &&
        (quarantine == [] || (|quarantine| == 1 && IsPartialOf(quarantine[0], tx, height))))
    || (batch == [] && |quarantine| == 1 && IsFullOf(quarantine[0], tx, height))
  }

  lemma {:induction false} CollectedMore(chain: Chain, txs: seq<RawTx>, n: nat, height: nat, batches: seq<Batch>,
                                         qs: seq<ParseQuarantine>, batch: seq<Batch>, quarantine: seq<ParseQuarantine>)
    requires n < |txs| && Collected(chain, txs[..n], height, batches, qs)
    requires IsResultOf(chain, txs[n], height, batch, quarantine)
    ensures Collected(chain, txs[..n + 1], height, batches + batch, qs + quarantine)
  {
    assert txs[..n + 1][..n] == txs[..n];
    if batch != [] {
      assert (batches + batch)[..|batches + batch| - 1] == batches;
    } else {
      assert batches + batch == batches;
    }
    if quarantine != [] {
      assert (qs + quarantine)[..|qs + quarantine| - 1] == qs;
    } else {
      assert qs + quarantine == qs;
    }
  }

  // ---- what each outcome becomes ----

  /** The row stands once, and no other has its hash. */
  ghost predicate RowAlone(rows: seq<Batch>, b: Batch) {
    exists k :: 0 <= k < |rows| && rows[k] == b && forall m :: 0 <= m < |rows| && m != k ==> rows[m].hash != b.hash
  }

  ghost predicate QuarantineAlone(qs: seq<ParseQuarantine>, q: ParseQuarantine) {
    exists k :: 0 <= k < |qs| && qs[k] == q && forall m :: 0 <= m < |qs| && m != k ==> qs[m].hash != q.hash
  }

  ghost predicate NoRow(rows: seq<Batch>, hash: string) {
    forall b :: b in rows ==> b.hash != hash
  }

  ghost predicate NoQuarantine(qs: seq<ParseQuarantine>, hash: string) {
    forall q :: q in qs ==> q.hash != hash
  }

  /** A full quarantine that tells the error. */
  predicate Tells(q: ParseQuarantine, err: ParseError, tx: RawTx, height: nat) {
    && err.Ambiguous? && q.contract == err.contract && q.action == err.action && q.error == err.text
    && q.hash == tx.hash && q.height == height && q.rawTx == tx && !IsPartialQuarantineStage(q.stage)
  }

  ghost predicate Answered(o: ParseOutcome, tx: RawTx, height: nat, batches: seq<Batch>, qs: seq<ParseQuarantine>) {
    match o
    case Parsed(txs) => RowAlone(batches, Batch(tx.hash, height, txs)) && NoQuarantine(qs, tx.hash)
    case Partial(txs, q) =>
      RowAlone(batches, Batch(tx.hash, height, txs)) && QuarantineAlone(qs, q) && q.hash == tx.hash
    case Failed(err) => NoRow(batches, tx.hash) && exists q :: Tells(q, err, tx, height) && QuarantineAlone(qs, q)
  }

  /** Everything collected so far belongs to one of the first `n` transactions. */
  ghost predicate OnlyFrom(txs: seq<RawTx>, n: nat, batches: seq<Batch>, qs: seq<ParseQuarantine>)
    requires n <= |txs|
  {
    && (forall b :: b in batches ==> exists j :: 0 <= j < n && txs[j].hash == b.hash)
    && (forall q :: q in qs ==> exists j :: 0 <= j < n && txs[j].hash == q.hash)
  }

  lemma RowStaysAlone(rows: seq<Batch>, b: Batch, more: seq<Batch>)
    requires RowAlone(rows, b) && NoRow(more, b.hash)
    ensures RowAlone(rows + more, b)
  {
    var k :| 0 <= k < |rows| && rows[k] == b && forall m :: 0 <= m < |rows| && m != k ==> rows[m].hash != b.hash;
    assert (rows + more)[k] == b;
  }

  lemma RowComesAlone(rows: seq<Batch>, b: Batch)
    requires NoRow(rows, b.hash)
    ensures RowAlone(rows + [b], b)
  {
    assert (rows + [b])[|rows|] == b;
  }

  lemma QuarantineStaysAlone(qs: seq<ParseQuarantine>, q: ParseQuarantine, more: seq<ParseQuarantine>)
    requires QuarantineAlone(qs, q) && NoQuarantine(more, q.hash)
    ensures QuarantineAlone(qs + more, q)
  {
    var k :| 0 <= k < |qs| && qs[k] == q && forall m :: 0 <= m < |qs| && m != k ==> qs[m].hash != q.hash;
    assert (qs + more)[k] == q;
  }

  lemma QuarantineComesAlone(qs: seq<ParseQuarantine>, q: ParseQuarantine)
    requires NoQuarantine(qs, q.hash)
    ensures QuarantineAlone(qs + [q], q)
  {
    assert (qs + [q])[|qs|] == q;
  }

  lemma StaysAnswered(o: ParseOutcome, tx: RawTx, height: nat, batches: seq<Batch>, qs: seq<ParseQuarantine>,
                      batch: seq<Batch>, quarantine: seq<ParseQuarantine>)
    requires Answered(o, tx, height, batches, qs) && NoRow(batch, tx.hash) && NoQuarantine(quarantine, tx.hash)
    ensures Answered(o, tx, height, batches + batch, qs + quarantine)
  {
    match o
    case Parsed(txs) => RowStaysAlone(batches, Batch(tx.hash, height, txs), batch);
    case Partial(txs, q) =>
      RowStaysAlone(batches, Batch(tx.hash, height, txs), batch);
      QuarantineStaysAlone(qs, q, quarantine);
    case Failed(err) =>
      var q :| Tells(q, err, tx, height) && QuarantineAlone(qs, q);
      QuarantineStaysAlone(qs, q, quarantine);
  }

  /** What one transaction adds, by its outcome. */
  ghost predicate Adds(o: ParseOutcome, tx: RawTx, height: nat, batch: seq<Batch>, quarantine: seq<ParseQuarantine>) {
    match o
    case Parsed(txs) => batch == [Batch(tx.hash, height, txs)] && quarantine == []
    case Partial(txs, q) => batch == [Batch(tx.hash, height, txs)] && quarantine == [q] && q.hash == tx.hash
    case Failed(err) => batch == [] && |quarantine| == 1 && Tells(quarantine[0], err, tx, height)
  }

  lemma NowAnswered(o: ParseOutcome, tx: RawTx, height: nat, batches: seq<Batch>, qs: seq<ParseQuarantine>,
                    batch: seq<Batch>, quarantine: seq<ParseQuarantine>)
    requires Adds(o, tx, height, batch, quarantine) && NoRow(batches, tx.hash) && NoQuarantine(qs, tx.hash)
    ensures Answered(o, tx, height, batches + batch, qs + quarantine)
  {
    if o.Failed? {
      assert batches + [] == batches && quarantine == [quarantine[0]];
      QuarantineComesAlone(qs, quarantine[0]);
    } else {
      RowComesAlone(batches, batch[0]);
      if o.Parsed? { assert qs + [] == qs; } else { QuarantineComesAlone(qs, o.quarantine); }
    }
  }

  ghost predicate AllAnswered(env: Env, txs: seq<RawTx>, n: nat, height: nat, batches: seq<Batch>,
                              qs: seq<ParseQuarantine>)
    requires n <= |txs|
  {
    && OnlyFrom(txs, n, batches, qs)
    && (DistinctHashes(txs) ==>
          forall j :: 0 <= j < n ==> Answered(env.parse(txs[j], height, j), txs[j], height, batches, qs))
  }

  lemma AnsweredMore(env: Env, txs: seq<RawTx>, n: nat, height: nat, batches: seq<Batch>, qs: seq<ParseQuarantine>,
                     batch: seq<Batch>, quarantine: seq<ParseQuarantine>)
    requires n < |txs| && AllAnswered(env, txs, n, height, batches, qs)
    requires Adds(env.parse(txs[n], height, n), txs[n], height, batch, quarantine)
    ensures AllAnswered(env, txs, n + 1, height, batches + batch, qs + quarantine)
  {
    assert forall b :: b in batch ==> b.hash == txs[n].hash;
    assert forall q :: q in quarantine ==> q.hash == txs[n].hash;
    if DistinctHashes(txs) {
      NowAnswered(env.parse(txs[n], height, n), txs[n], height, batches, qs, batch, quarantine);
      forall j | 0 <= j < n
        ensures Answered(env.parse(txs[j], height, j), txs[j], height, batches + batch, qs + quarantine)
      {
        StaysAnswered(env.parse(txs[j], height, j), txs[j], height, batches, qs, batch, quarantine);
      }
    }
  }

  lemma {:induction false} UpsertedAre(was: map<string, QuarantineRow>, qs: seq<ParseQuarantine>, hash: string)
    ensures NoQuarantine(qs, hash) ==>
              (hash in Upserts(was, qs) <==> hash in was) && (hash in was ==> Upserts(was, qs)[hash] == was[hash])
    ensures forall q: ParseQuarantine :: q.hash == hash && QuarantineAlone(qs, q) ==>
              hash in Upserts(was, qs) && Upserts(was, qs)[hash] == QuarantineRow(q, Pending)
  {
    if qs != [] {
      var n, last := |qs| - 1, qs[|qs| - 1];
      UpsertedAre(was, qs[..n], hash);
      forall q: ParseQuarantine | q.hash == hash && QuarantineAlone(qs, q)
        ensures hash in Upserts(was, qs) && Upserts(was, qs)[hash] == QuarantineRow(q, Pending)
      {
        var k :| 0 <= k < |qs| && qs[k] == q && forall m :: 0 <= m < |qs| && m != k ==> qs[m].hash != q.hash;
        if k < n { assert qs[..n][k] == q && QuarantineAlone(qs[..n], q); }
      }
    }
  }

  lemma {:induction false} StoredIffRow(rows: seq<Batch>, hash: string)
    ensures Stored(rows, hash) == 0 <==> NoRow(rows, hash)
  {
    if rows != [] {
      StoredIffRow(rows[..|rows| - 1], hash);
      assert rows == rows[..|rows| - 1] + [rows[|rows| - 1]];
    }
  }

  lemma RowAloneBehind(rows: seq<Batch>, batches: seq<Batch>, b: Batch)
    requires NoRow(rows, b.hash) && RowAlone(batches, b)
    ensures RowAlone(rows + batches, b)
  {
    var k :| 0 <= k < |batches| && batches[k] == b &&
      forall m :: 0 <= m < |batches| && m != k ==> batches[m].hash != b.hash;
    var all := rows + batches;
    assert all[|rows| + k] == b;
    forall m | 0 <= m < |all| && m != |rows| + k ensures all[m].hash != b.hash {
      if m < |rows| { assert all[m] in rows; } else { assert all[m] == batches[m - |rows|]; }
    }
  }

  /** What the outcome of a transaction leaves in the database. */
  ghost predicate AnsweredIn(o: ParseOutcome, tx: RawTx, height: nat, db: Db) {
    match o
    case Parsed(txs) => RowAlone(db.rows, Batch(tx.hash, height, txs)) && tx.hash !in db.quarantines
    case Partial(txs, q) =>
      && RowAlone(db.rows, Batch(tx.hash, height, txs))
      && tx.hash in db.quarantines && db.quarantines[tx.hash] == QuarantineRow(q, Pending)
    case Failed(err) =>
      && NoRow(db.rows, tx.hash) && tx.hash in db.quarantines && db.quarantines[tx.hash].status == Pending
      && Tells(db.quarantines[tx.hash].quarantine, err, tx, height)
  }

  /** A height is new to the database, so its answers are the database's. */
  lemma CommittedAnswers(db: Db, chain: Chain, start: nat, o: ParseOutcome, i: nat, batches: seq<Batch>,
                         qs: seq<ParseQuarantine>)
    requires UniqueHashes(chain) && Accounted(db, chain, start) && i < |chain.txs(db.synced + 1)|
    requires Answered(o, chain.txs(db.synced + 1)[i], db.synced + 1, batches, qs)
    ensures AnsweredIn(o, chain.txs(db.synced + 1)[i], db.synced + 1,
                       InsertDb(db, db.synced, db.synced + 1, batches, qs))
  {
    var cur, tx := db.synced + 1, chain.txs(db.synced + 1)[i];
    assert !Known(chain, start, db.synced, tx.hash);
    StoredIffRow(db.rows, tx.hash);
    UpsertedAre(db.quarantines, qs, tx.hash);
    match o {
      case Parsed(txs) => RowAloneBehind(db.rows, batches, Batch(tx.hash, cur, txs));
      case Partial(txs, q) => RowAloneBehind(db.rows, batches, Batch(tx.hash, cur, txs));
      case Failed(err) => var q :| Tells(q, err, tx, cur) && QuarantineAlone(qs, q);
    }
  }

  /** The database has the answers of all transactions of a height. */
  ghost predicate HeightAnswered(env: Env, chain: Chain, cur: nat, db: Db) {
    forall i :: 0 <= i < |chain.txs(cur)| ==>
      AnsweredIn(env.parse(chain.txs(cur)[i], cur, i), chain.txs(cur)[i], cur, db)
  }

  lemma AllCommitted(db: Db, chain: Chain, start: nat, env: Env, batches: seq<Batch>, qs: seq<ParseQuarantine>)
    requires UniqueHashes(chain) && Accounted(db, chain, start)
    requires var txs := chain.txs(db.synced + 1); AllAnswered(env, txs, |txs|, db.synced + 1, batches, qs)
    ensures HeightAnswered(env, chain, db.synced + 1, InsertDb(db, db.synced, db.synced + 1, batches, qs))
  {
    var cur, txs := db.synced + 1, chain.txs(db.synced + 1);
    assert DistinctHashes(txs);
    forall i | 0 <= i < |txs|
      ensures AnsweredIn(env.parse(txs[i], cur, i), txs[i], cur, InsertDb(db, db.synced, cur, batches, qs))
    {
      CommittedAnswers(db, chain, start, env.parse(txs[i], cur, i), i, batches, qs);
    }
  }

  class DexApp {
    const repo: Repo
    const chain: Chain
    const retryMode: RetryMode
    const poolSnapshotInterval: nat
    const sameHeightTolerance: nat
    var lastSrcHeight: nat
    var sameHeightCount: nat
    var startupRetryAttempted: bool

    constructor (repo: Repo, chain: Chain, retryMode: RetryMode, poolSnapshotInterval: nat, sameHeightTolerance: nat)
      ensures this.repo == repo && this.chain == chain && this.poolSnapshotInterval == poolSnapshotInterval
    {
      this.repo, this.chain, this.retryMode := repo, chain, retryMode;
      this.poolSnapshotInterval, this.sameHeightTolerance := poolSnapshotInterval, sameHeightTolerance;
      lastSrcHeight, sameHeightCount, startupRetryAttempted := 0, 0, false;
    }

    predicate ShouldRetryQuarantine()
      reads this
    {
      retryMode == EveryRun || (retryMode == Startup && !startupRetryAttempted)
    }

    /** Replays the pending full quarantines and resolves those that now parse: what is still
        pending after a finished retry was unclear again. */
    method RetryPendingQuarantines(env: Env, ghost start: nat) returns (ok: bool)
      requires repo.AlwaysAccounted(chain, start) && EnvSound(env, chain)
      modifies repo
      ensures repo.AlwaysAccounted(chain, start) && repo.db.synced == old(repo.db.synced)
      ensures ok ==> forall hash :: PendingFull(repo.db.quarantines, hash) ==>
        exists n: nat :: UnclearAt(env, repo.db.quarantines[hash].quarantine, n) &&
          var q := repo.db.quarantines[hash].quarantine;
          var o := env.parse(q.rawTx, q.height, n);
          o.Partial? || (o.Failed? && o.err.Ambiguous?)
      ensures Smooth(env) ==> ok
    {
      if !env.works(PendingQuarantines, 0) {
        return false;
      }
      var quarantines := PendingRows(env, start);
      for n := 0 to |quarantines|
        invariant repo.AlwaysAccounted(chain, start) && repo.db.synced == old(repo.db.synced)
        invariant Retrying(env, repo.db.quarantines, quarantines, n)
      {
        RetryNext(env, repo.db.quarantines, quarantines, n);
        ghost var before := repo.db.quarantines;
        ok := RetryOne(env, quarantines[n], n, start);
        if !ok {
          return;
        }
        RetryStep(env, before, repo.db.quarantines, quarantines, n);
      }
      RetryEnds(env, repo.db.quarantines, quarantines);
      return true;
    }

    /** The rows to replay. */
    method PendingRows(env: Env, ghost start: nat) returns (quarantines: seq<ParseQuarantine>)
      requires repo.AlwaysAccounted(chain, start)
      ensures Retrying(env, repo.db.quarantines, quarantines, 0)
    {
      AccountedKeys(repo.db, chain, start);
      quarantines := repo.PendingParseQuarantines();
      RetryStarts(env, repo.db, chain, start, quarantines);
    }

    /** Replays one quarantine; `ok` is false when the whole retry stops. */
    method RetryOne(env: Env, q: ParseQuarantine, n: nat, ghost start: nat) returns (ok: bool)
      requires repo.AlwaysAccounted(chain, start) && RowHolds(repo.db.quarantines, q) && EnvSound(env, chain)
      modifies repo
      ensures repo.AlwaysAccounted(chain, start) && repo.db.synced == old(repo.db.synced)
      ensures OnlyResolves(old(repo.db.quarantines), repo.db.quarantines, q.hash)
      ensures ok && PendingFull(repo.db.quarantines, q.hash) ==> UnclearAt(env, q, n)
      ensures Smooth(env) && old(repo.db.quarantines)[q.hash].status == Pending ==> ok
      ensures var o := env.parse(q.rawTx, q.height, n);
              && (IsPartialQuarantineStage(q.stage) || !o.Parsed? ==> repo.db == old(repo.db))
              && (!ok ==> repo.db == old(repo.db))
              && (ok && o.Parsed? && !IsPartialQuarantineStage(q.stage) ==>
                    && repo.db.rows == old(repo.db.rows) + [Batch(q.hash, q.height, o.txs)]
                    && repo.db.quarantines == old(repo.db.quarantines)[q.hash := QuarantineRow(q, Resolved)])
              && (ok && o.Failed? && !IsPartialQuarantineStage(q.stage) ==> o.err.Ambiguous?)
    {
      if IsPartialQuarantineStage(q.stage) {
        return true;
      }
      if !env.works(UpdateParsers, n) {
        return false;
      }
      var outcome := env.parse(q.rawTx, q.height, n);
      if outcome.Partial? || (outcome.Failed? && outcome.err.Ambiguous?) {
        return true;
      }
      if outcome.Failed? {
        assert RejectsAt(env, q.rawTx, q.height, n);
        return false;
      }
      ok := ResolveParsed(q, outcome.txs, env.works(Resolve, n), start);
    }

    /** Inserts the output of a replayed quarantine and marks it resolved. */
    method ResolveParsed(q: ParseQuarantine, txs: seq<ParsedTx>, works: bool, ghost start: nat) returns (ok: bool)
      requires repo.AlwaysAccounted(chain, start) && RowHolds(repo.db.quarantines, q)
      requires !IsPartialQuarantineStage(q.stage) && chain.output(q.rawTx, q.height, txs)
      modifies repo
      ensures repo.AlwaysAccounted(chain, start) && repo.db.synced == old(repo.db.synced)
      ensures ok <==> works && old(repo.db.quarantines)[q.hash].status == Pending
      ensures repo.db == if ok then ResolveDb(old(repo.db), q.hash, q.height, txs) else old(repo.db)
    {
      ghost var before := repo.db;
      ok := repo.ResolveParseQuarantine(q.hash, q.height, txs, works);
      if ok {
        ResolveKeeps(before, chain, start, q.hash, q.height, txs);
      }
    }

    /** Parses one height: its output and its quarantines, or an error that stops the run. */
    method ParseHeight(env: Env, cur: nat) returns (ok: bool, batches: seq<Batch>, qs: seq<ParseQuarantine>)
      requires EnvSound(env, chain)
      ensures ok <==> forall i :: 0 <= i < |chain.txs(cur)| ==> !RejectsAt(env, chain.txs(cur)[i], cur, i)
      ensures ok ==> Collected(chain, chain.txs(cur), cur, batches, qs)
      ensures ok && DistinctHashes(chain.txs(cur)) ==> forall i :: 0 <= i < |chain.txs(cur)| ==>
        var tx := chain.txs(cur)[i];
        var o := env.parse(tx, cur, i);
        && (o.Parsed? ==>
              && (exists k :: 0 <= k < |batches| && batches[k] == Batch(tx.hash, cur, o.txs) &&
                    forall m :: 0 <= m < |batches| && m != k ==> batches[m].hash != tx.hash)
              && (forall q :: q in qs ==> q.hash != tx.hash))
        && (o.Partial? ==>
              && (exists k :: 0 <= k < |batches| && batches[k] == Batch(tx.hash, cur, o.txs) &&
                    forall m :: 0 <= m < |batches| && m != k ==> batches[m].hash != tx.hash)
              && (exists k :: 0 <= k < |qs| && qs[k] == o.quarantine &&
                    forall m :: 0 <= m < |qs| && m != k ==> qs[m].hash != tx.hash))
        && (o.Failed? ==>
              && o.err.Ambiguous? && (forall b :: b in batches ==> b.hash != tx.hash)
              && (exists k :: 0 <= k < |qs| && qs[k].rawTx == tx && qs[k].height == cur && qs[k].hash == tx.hash &&
                    qs[k].contract == o.err.contract && qs[k].action == o.err.action && qs[k].error == o.err.text &&
                    !IsPartialQuarantineStage(qs[k].stage) &&
                    forall m :: 0 <= m < |qs| && m != k ==> qs[m].hash != tx.hash))
      ensures ok ==> AllAnswered(env, chain.txs(cur), |chain.txs(cur)|, cur, batches, qs)
    {
      ok, batches, qs := ParseTxsOf(env, cur);
    }

    /** The loop over the transactions. */
    method ParseTxsOf(env: Env, cur: nat) returns (ok: bool, batches: seq<Batch>, qs: seq<ParseQuarantine>)
      requires EnvSound(env, chain)
      ensures ok <==> forall i :: 0 <= i < |chain.txs(cur)| ==> !RejectsAt(env, chain.txs(cur)[i], cur, i)
      ensures ok ==> Collected(chain, chain.txs(cur), cur, batches, qs)
      ensures ok ==> AllAnswered(env, chain.txs(cur), |chain.txs(cur)|, cur, batches, qs)
    {
      var txs := chain.txs(cur);
      batches, qs := [], [];
      for i := 0 to |txs|
        invariant forall j :: 0 <= j < i ==> !RejectsAt(env, txs[j], cur, j)
        invariant Collected(chain, txs[..i], cur, batches, qs)
        invariant AllAnswered(env, txs, i, cur, batches, qs)
      {
        var parsed, batch, quarantine := ParseTx(env, txs[i], cur, i);
        if !parsed {
          return false, batches, qs;
        }
        CollectedMore(chain, txs, i, cur, batches, qs, batch, quarantine);
        AnsweredMore(env, txs, i, cur, batches, qs, batch, quarantine);
        batches, qs := batches + batch, qs + quarantine;
      }
      assert txs[..|txs|] == txs;
      return true, batches, qs;
    }

    /** One round of the loop: what a transaction adds to the batches and the quarantines. */
    method ParseTx(env: Env, tx: RawTx, cur: nat, i: nat)
      returns (ok: bool, batch: seq<Batch>, quarantine: seq<ParseQuarantine>)
      requires EnvSound(env, chain)
      ensures ok <==> !RejectsAt(env, tx, cur, i)
      ensures ok ==> IsResultOf(chain, tx, cur, batch, quarantine)
      ensures ok ==> Adds(env.parse(tx, cur, i), tx, cur, batch, quarantine)
    {
      match env.parse(tx, cur, i) {
        case Partial(parsed, q) =>
          return true, [Batch(tx.hash, cur, parsed)], [q];
        case Failed(err) =>
          var createsPair := RawTxContainsCreatePair(tx);
          if !err.Ambiguous? || createsPair {
            return false, [], [];
          }
          var stage := ParseStage(err.text);
          return true, [], [ParseQuarantine(cur, tx.hash, stage, err.contract, err.action, err.text, tx)];
        case Parsed(parsed) =>
          return true, [Batch(tx.hash, cur, parsed)], [];
      }
    }

    method CheckRemoteHeight(srcHeight: nat) returns (ok: bool)
      modifies this`sameHeightCount
      ensures sameHeightCount == if srcHeight == lastSrcHeight then old(sameHeightCount) + 1 else 0
      ensures ok <==> sameHeightCount == 0 || sameHeightCount <= sameHeightTolerance
    {
      if srcHeight == lastSrcHeight {
        sameHeightCount := sameHeightCount + 1;
        return sameHeightCount <= sameHeightTolerance;
      }
      sameHeightCount := 0;
      return true;
    }

    /** One round of the loop: parses a height and commits what it gives. */
    method SyncHeight(env: Env, cur: nat, ghost start: nat) returns (result: RunResult)
      requires repo.AlwaysAccounted(chain, start) && UniqueHashes(chain) && EnvSound(env, chain)
      requires cur == repo.db.synced + 1
      modifies repo
      ensures repo.AlwaysAccounted(chain, start)
      ensures repo.db.synced == if result == Done then cur else cur - 1
      ensures result == SourceBehind <==> !env.works(SourceTxs, cur) && env.indexing(cur)
      ensures poolSnapshotInterval == 0 ==> result != Done
      ensures poolSnapshotInterval > 0 ==> result != Crashed
      ensures Smooth(env) ==> result == if poolSnapshotInterval > 0 then Done else Crashed
      ensures result != Done ==> repo.db == old(repo.db)
      ensures result == Done ==> old(repo.db.rows) <= repo.db.rows
      ensures result == Done ==> forall i :: 0 <= i < |chain.txs(cur)| ==>
        var tx := chain.txs(cur)[i];
        var o := env.parse(tx, cur, i);
        && (o.Parsed? || o.Partial? ==>
              exists k :: 0 <= k < |repo.db.rows| && repo.db.rows[k] == Batch(tx.hash, cur, o.txs) &&
                forall m :: 0 <= m < |repo.db.rows| && m != k ==> repo.db.rows[m].hash != tx.hash)
        && (o.Parsed? ==> tx.hash !in repo.db.quarantines)
        && (o.Partial? ==>
              tx.hash in repo.db.quarantines && repo.db.quarantines[tx.hash] == QuarantineRow(o.quarantine, Pending))
        && (o.Failed? ==>
              && (forall b :: b in repo.db.rows ==> b.hash != tx.hash)
              && tx.hash in repo.db.quarantines && repo.db.quarantines[tx.hash].status == Pending
              && var q := repo.db.quarantines[tx.hash].quarantine;
                 && o.err.Ambiguous? && q.contract == o.err.contract && q.action == o.err.action
                 && q.error == o.err.text
                 && q.height == cur && q.rawTx == tx && !IsPartialQuarantineStage(q.stage))
    {
      result := TryHeight(env, cur, start);
    }

    method TryHeight(env: Env, cur: nat, ghost start: nat) returns (result: RunResult)
      requires repo.AlwaysAccounted(chain, start) && UniqueHashes(chain) && EnvSound(env, chain)
      requires cur == repo.db.synced + 1
      modifies repo
      ensures repo.AlwaysAccounted(chain, start)
      ensures repo.db.synced == if result == Done then cur else cur - 1
      ensures result == SourceBehind <==> !env.works(SourceTxs, cur) && env.indexing(cur)
      ensures poolSnapshotInterval == 0 ==> result != Done
      ensures poolSnapshotInterval > 0 ==> result != Crashed
      ensures Smooth(env) ==> result == if poolSnapshotInterval > 0 then Done else Crashed
      ensures result != Done ==> repo.db == old(repo.db)
      ensures result == Done ==> old(repo.db.rows) <= repo.db.rows
      ensures result == Done ==> HeightAnswered(env, chain, cur, repo.db)
    {
      if !env.works(SourceTxs, cur) {
        return if env.indexing(cur) then SourceBehind else Error("source txs");
      }
      if !env.works(UpdateParsers, cur) {
        return Error("update parsers");
      }
      var ok, batches, qs := ParseHeight(env, cur);
      if !ok {
        return Error("parse");
      }
      result := StoreParsed(env, cur, batches, qs, start);
    }

    /** What follows once all transactions of a height are parsed. */
    method StoreParsed(env: Env, cur: nat, batches: seq<Batch>, qs: seq<ParseQuarantine>, ghost start: nat)
      returns (result: RunResult)
      requires repo.AlwaysAccounted(chain, start) && UniqueHashes(chain) && cur == repo.db.synced + 1
      requires Collected(chain, chain.txs(cur), cur, batches, qs)
      requires AllAnswered(env, chain.txs(cur), |chain.txs(cur)|, cur, batches, qs)
      modifies repo
      ensures repo.AlwaysAccounted(chain, start) && result != SourceBehind
      ensures repo.db == if result == Done then InsertDb(old(repo.db), cur - 1, cur, batches, qs) else old(repo.db)
      ensures result == Done ==> HeightAnswered(env, chain, cur, repo.db)
      ensures poolSnapshotInterval == 0 <==> result == Crashed
      ensures Smooth(env) && poolSnapshotInterval > 0 ==> result == Done
    {
      if poolSnapshotInterval == 0 {
        return Crashed;
      }
      if cur % poolSnapshotInterval == 0 && !env.works(PoolInfos, cur) {
        return Error("pool infos");
      }
      var ok := CommitHeight(env, cur, batches, qs, start);
      return if ok then Done else Error("insert");
    }

    /** The one transaction that stores a height. */
    method CommitHeight(env: Env, cur: nat, batches: seq<Batch>, qs: seq<ParseQuarantine>, ghost start: nat)
      returns (ok: bool)
      requires repo.AlwaysAccounted(chain, start) && UniqueHashes(chain) && cur == repo.db.synced + 1
      requires Collected(chain, chain.txs(cur), cur, batches, qs)
      requires AllAnswered(env, chain.txs(cur), |chain.txs(cur)|, cur, batches, qs)
      modifies repo
      ensures repo.AlwaysAccounted(chain, start)
      ensures repo.db == if ok then InsertDb(old(repo.db), cur - 1, cur, batches, qs) else old(repo.db)
      ensures ok == env.works(InsertHeight, cur)
      ensures ok ==> HeightAnswered(env, chain, cur, repo.db)
    {
      ghost var before := repo.db;
      InsertKeeps(before, chain, start, batches, qs);
      AllCommitted(before, chain, start, env, batches, qs);
      ok := repo.Insert(cur - 1, cur, batches, qs, env.works(InsertHeight, cur));
    }

    /** One run of the parser, up to the height the chain has reached. */
    method Run(env: Env, srcHeight: nat, ghost start: nat) returns (result: RunResult)
      requires repo.AlwaysAccounted(chain, start) && UniqueHashes(chain) && EnvSound(env, chain)
      modifies this, repo
      ensures repo.AlwaysAccounted(chain, start)
      ensures old(repo.db.synced) <= repo.db.synced
      ensures result == Done ==> repo.db.synced == srcHeight && lastSrcHeight == srcHeight
      ensures result != Done ==> lastSrcHeight == old(lastSrcHeight)
      ensures result == SourceBehind ==>
        repo.db.synced < srcHeight && !env.works(SourceTxs, repo.db.synced + 1) && env.indexing(repo.db.synced + 1)
      ensures poolSnapshotInterval == 0 ==> repo.db.synced == old(repo.db.synced)
      ensures poolSnapshotInterval > 0 ==> result != Crashed
      ensures Smooth(env) && old(repo.db.synced) <= srcHeight ==>
        || (srcHeight == old(lastSrcHeight) && old(sameHeightCount) >= sameHeightTolerance)
        || result == if poolSnapshotInterval > 0 || old(repo.db.synced) == srcHeight then Done else Crashed
    {
      result := Prepare(env, srcHeight, start);
      if result != Done {
        return;
      }
      result := SyncTo(env, srcHeight, start);
      if result == Done {
        lastSrcHeight := srcHeight;
      }
    }

    /** What a run does before the loop over the heights; `Done` lets it go on. */
    method Prepare(env: Env, srcHeight: nat, ghost start: nat) returns (result: RunResult)
      requires repo.AlwaysAccounted(chain, start) && EnvSound(env, chain)
      modifies this`startupRetryAttempted, this`sameHeightCount, repo
      ensures repo.AlwaysAccounted(chain, start) && repo.db.synced == old(repo.db.synced)
      ensures result == Done || result.Error?
      ensures result == Done ==> repo.db.synced <= srcHeight
      ensures Smooth(env) && repo.db.synced <= srcHeight ==>
        (srcHeight == lastSrcHeight && old(sameHeightCount) >= sameHeightTolerance) || result == Done
    {
      if !env.works(TokenExceptions, 0) {
        return Error("token exceptions");
      }
      var retried := RetryIfDue(env, start);
      if !retried {
        return Error("retry quarantine");
      }
      if !env.works(SyncedHeight, 0) || !env.works(SourceHeight, 0) {
        return Error("heights");
      }
      if srcHeight < repo.db.synced {
        return Error("remote height is less than local synced height");
      }
      var advanced := CheckRemoteHeight(srcHeight);
      return if advanced then Done else Error("no new height");
    }

    method RetryIfDue(env: Env, ghost start: nat) returns (ok: bool)
      requires repo.AlwaysAccounted(chain, start) && EnvSound(env, chain)
      modifies this`startupRetryAttempted, repo
      ensures repo.AlwaysAccounted(chain, start) && repo.db.synced == old(repo.db.synced)
      ensures Smooth(env) ==> ok
    {
      if !ShouldRetryQuarantine() {
        return true;
      }
      ok := RetryPendingQuarantines(env, start);
      if ok && retryMode == Startup {
        startupRetryAttempted := true;
      }
    }

    /** The loop over the heights. */
    method SyncTo(env: Env, srcHeight: nat, ghost start: nat) returns (result: RunResult)
      requires repo.AlwaysAccounted(chain, start) && UniqueHashes(chain) && EnvSound(env, chain)
      requires repo.db.synced <= srcHeight
      modifies repo
      ensures repo.AlwaysAccounted(chain, start)
      ensures old(repo.db.synced) <= repo.db.synced <= srcHeight
      ensures result == Done ==> repo.db.synced == srcHeight
      ensures result == SourceBehind ==>
        repo.db.synced < srcHeight && !env.works(SourceTxs, repo.db.synced + 1) && env.indexing(repo.db.synced + 1)
      ensures poolSnapshotInterval == 0 ==> repo.db.synced == old(repo.db.synced)
      ensures poolSnapshotInterval > 0 ==> result != Crashed
      ensures Smooth(env) ==>
        result == if poolSnapshotInterval > 0 || old(repo.db.synced) == srcHeight then Done else Crashed
    {
      var cur := repo.db.synced + 1;
      while cur <= srcHeight
        invariant repo.AlwaysAccounted(chain, start)
        invariant old(repo.db.synced) <= repo.db.synced == cur - 1 <= srcHeight
        invariant poolSnapshotInterval == 0 ==> repo.db.synced == old(repo.db.synced)
      {
        result := SyncHeight(env, cur, start);
        if result != Done {
          return;
        }
        cur := cur + 1;
      }
      return Done;
    }
  }

  /** Any number of runs, over any number of process starts. */
  method RunForever(repo: Repo, chain: Chain, retryMode: RetryMode, interval: nat, tolerance: nat,
                    runs: seq<(bool, Env, nat)>)
    requires repo.AlwaysAccounted(chain, repo.db.synced) && UniqueHashes(chain)
    requires forall i :: 0 <= i < |runs| ==> EnvSound(runs[i].1, chain)
    modifies repo
    ensures repo.AlwaysAccounted(chain, old(repo.db.synced))
  {
    ghost var start := repo.db.synced;
    var app := new DexApp(repo, chain, retryMode, interval, tolerance);
    var crashed := false;
    for i := 0 to |runs|
      invariant fresh(app) && app.repo == repo && app.chain == chain && app.poolSnapshotInterval == interval
      invariant repo.AlwaysAccounted(chain, start)
    {
      if runs[i].0 || crashed {
        app := new DexApp(repo, chain, retryMode, interval, tolerance);
      }
      var result := app.Run(runs[i].1, runs[i].2, start);
      crashed := result == Crashed;
    }
  }

  /** The same for a database that starts empty at a synced height. */
  method RunFromEmpty(synced: nat, chain: Chain, retryMode: RetryMode, interval: nat, tolerance: nat,
                      runs: seq<(bool, Env, nat)>)
    returns (repo: Repo)
    requires UniqueHashes(chain)
    requires forall i :: 0 <= i < |runs| ==> EnvSound(runs[i].1, chain)
    ensures fresh(repo) && repo.AlwaysAccounted(chain, synced)
  {
    repo := new Repo(Db(synced, [], map[]));
    FreshDbAccounted(chain, synced);
    RunForever(repo, chain, retryMode, interval, tolerance, runs);
  }
}
