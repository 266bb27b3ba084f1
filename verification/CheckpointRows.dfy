/** A checkpoint and the next one: what is stored of the generated transactions, and what the
    query that sums the stored rows makes of it (parser/dex/repo/mappers.go,
    ParsedPoolsInfo of parser/dex/repo/repository.go, parser/checkpoint/builder.go). */
module CheckpointRows {
  import opened Attempts
  import opened Options
  import opened Orders
  import opened Amounts
  import opened Checkpoint

  /** A row of parsed transactions of one pool; the amounts are decimal columns. */
  datatype Row = Row(asset0: string, amount0: int, asset1: string, amount1: int, lp: int)

  // ---- storing ----

  function EmptyStringToZero(amount: string): string {
    if amount == "" then "0" else amount
  }

  /** A withdraw is stored with a sign in front of its share. */
  function StoredShare(tx: Tx): string {
    if tx.kind == Withdraw then "-" + EmptyStringToZero(tx.lpAmount) else EmptyStringToZero(tx.lpAmount)
  }

  /** The row of a transaction; `None` when a column does not take its text, which fails the
      whole insert. */
  function ToRow(tx: Tx): Option<Row> {
    var a0, a1 := ToBigInt(EmptyStringToZero(tx.asset0.amount)), ToBigInt(EmptyStringToZero(tx.asset1.amount));
    var lp := ToBigInt(StoredShare(tx));
    if a0.None? || a1.None? || lp.None? then None
    else Some(Row(tx.asset0.addr, a0.value, tx.asset1.addr, a1.value, lp.value))
  }

  lemma FormatNotEmpty(n: int)
    ensures Format(n) != "" && EmptyStringToZero(Format(n)) == Format(n) && ToBigInt(Format(n)) == Some(n)
  {
    FormatParses(n);
  }

  /** A sign in front of a number negates it, unless it has one. */
  lemma SignInFront(n: int)
    ensures ToBigInt("-" + Format(n)) == if n < 0 then None else Some(-n)
  {
    var s := "-" + Format(n);
    assert Body(s) == Format(n);
    if n < 0 {
      assert !IsDigit(Format(n)[0]);
    }
  }

  lemma {:induction false} StoresAs(tx: Tx, v0: int, v1: int, share: int)
    requires ToBigInt(EmptyStringToZero(tx.asset0.amount)) == Some(v0)
    requires ToBigInt(EmptyStringToZero(tx.asset1.amount)) == Some(v1)
    requires ToBigInt(EmptyStringToZero(tx.lpAmount)) == Some(share)
    requires ToBigInt("-" + EmptyStringToZero(tx.lpAmount)) == if share < 0 then None else Some(-share)
    ensures ToRow(tx).None? <==> tx.kind == Withdraw && share < 0
    ensures ToRow(tx).Some? ==>
              ToRow(tx).value == Row(tx.asset0.addr, v0, tx.asset1.addr, v1,
                                     if tx.kind == Withdraw then -share else share)
  {
  }

  /** A generated difference can be stored exactly unless it is a withdraw of a negative share;
      the share is stored as it is exactly unless it is a withdraw of a positive one. */
  lemma {:induction false} DifferenceStores(src: PoolInfo, d0: Diff, d1: Diff, share: int)
    requires TxBetween(src, d0, d1, share).Some?
    ensures var tx := TxBetween(src, d0, d1, share).value;
            && (tx.kind == Withdraw <==> d0.amount <= 0 && d1.amount <= 0)
            && (ToRow(tx).None? <==> tx.kind == Withdraw && share < 0)
            && (ToRow(tx).Some? ==>
                  ToRow(tx).value == Row(d0.addr, d0.amount, d1.addr, d1.amount,
                                         if tx.kind == Withdraw then -share else share))
  {
    FormatNotEmpty(d0.amount);
    FormatNotEmpty(d1.amount);
    FormatNotEmpty(share);
    SignInFront(share);
    StoresAs(TxBetween(src, d0, d1, share).value, d0.amount, d1.amount, share);
  }

  // ---- the recorded pool ----

  function Later(less: (string, string) -> bool, a: string, b: string): string {
    if less(a, b) then b else a
  }

  /** `MAX` over a column, in the database's order of strings. */
  function Max0(less: (string, string) -> bool, rows: seq<Row>): string
    requires rows != []
  {
    if |rows| == 1 then rows[0].asset0 else Later(less, Max0(less, rows[..|rows| - 1]), rows[|rows| - 1].asset0)
  }

  function Max1(less: (string, string) -> bool, rows: seq<Row>): string
    requires rows != []
  {
    if |rows| == 1 then rows[0].asset1 else Later(less, Max1(less, rows[..|rows| - 1]), rows[|rows| - 1].asset1)
  }

  function Sum0(rows: seq<Row>): int {
    if rows == [] then 0 else Sum0(rows[..|rows| - 1]) + rows[|rows| - 1].amount0
  }

  function Sum1(rows: seq<Row>): int {
    if rows == [] then 0 else Sum1(rows[..|rows| - 1]) + rows[|rows| - 1].amount1
  }

  function SumShare(rows: seq<Row>): int {
    if rows == [] then 0 else SumShare(rows[..|rows| - 1]) + rows[|rows| - 1].lp
  }

  /** The columns of a pool's rows, grouped: each summed by its position. */
  function RecordedPool(less: (string, string) -> bool, contract: string, rows: seq<Row>): PoolInfo
    requires rows != []
  {
    PoolInfo(contract, [Asset(Max0(less, rows), Format(Sum0(rows))), Asset(Max1(less, rows), Format(Sum1(rows)))], "",
             Format(SumShare(rows)))
  }

  lemma {:induction false} RecordedIsNumeric(less: (string, string) -> bool, contract: string, rows: seq<Row>)
    requires rows != []
    ensures Numeric(RecordedPool(less, contract, rows))
    ensures var rdb := RecordedPool(less, contract, rows);
            && Value(rdb.assets[0].amount) == Sum0(rows) && Value(rdb.assets[1].amount) == Sum1(rows)
            && Value(rdb.totalShare) == SumShare(rows)
  {
    FormatParses(Sum0(rows));
    FormatParses(Sum1(rows));
    FormatParses(SumShare(rows));
  }

  /** All rows name the assets in the same order. */
  ghost predicate InOrder(rows: seq<Row>, x: string, y: string) {
    forall i :: 0 <= i < |rows| ==> rows[i].asset0 == x && rows[i].asset1 == y
  }

  lemma {:induction false} OneOrder(less: (string, string) -> bool, rows: seq<Row>, x: string, y: string)
    requires rows != [] && InOrder(rows, x, y)
    ensures Max0(less, rows) == x && Max1(less, rows) == y
  {
    if |rows| > 1 { OneOrder(less, rows[..|rows| - 1], x, y); }
  }

  lemma {:induction false} OneRowMore(less: (string, string) -> bool, rows: seq<Row>, row: Row)
    requires rows != []
    ensures var more := rows + [row];
            && Sum0(more) == Sum0(rows) + row.amount0 && Sum1(more) == Sum1(rows) + row.amount1
            && SumShare(more) == SumShare(rows) + row.lp
            && Max0(less, more) == Later(less, Max0(less, rows), row.asset0)
            && Max1(less, more) == Later(less, Max1(less, rows), row.asset1)
  {
    assert (rows + [row])[..|rows|] == rows;
  }

  // ---- one checkpoint after another ----

  lemma {:induction false} GapsInOrder(s0: Asset, s1: Asset, r0: Asset, r1: Asset)
    requires s0.addr == r0.addr != s1.addr == r1.addr
    ensures Gap(s0, r0) + Gap(s0, r1) + (Gap(s1, r0) + Gap(s1, r1)) == [Difference(s0, r0), Difference(s1, r1)]
  {
  }

  lemma {:induction false} GapsCrossed(s0: Asset, s1: Asset, r0: Asset, r1: Asset)
    requires s0.addr == r1.addr != s1.addr == r0.addr
    ensures Gap(s0, r0) + Gap(s0, r1) + (Gap(s1, r0) + Gap(s1, r1)) == [Difference(s0, r1), Difference(s1, r0)]
  {
  }

  /** The differences of a pool from one that names its assets at the same places. */
  lemma {:induction false} DiffsInOrder(src: PoolInfo, rdb: PoolInfo)
    requires TwoAssets(src) && |rdb.assets| == 2 && Numeric(src) && Numeric(rdb)
    requires src.assets[0].addr == rdb.assets[0].addr && src.assets[1].addr == rdb.assets[1].addr
    ensures Diffs(src.assets, rdb.assets) == Ok([Difference(src.assets[0], rdb.assets[0]),
                                                 Difference(src.assets[1], rdb.assets[1])])
  {
    DiffsAre(src, rdb);
    GapsInOrder(src.assets[0], src.assets[1], rdb.assets[0], rdb.assets[1]);
  }

  lemma {:induction false} DiffsCrossed(src: PoolInfo, rdb: PoolInfo)
    requires TwoAssets(src) && |rdb.assets| == 2 && Numeric(src) && Numeric(rdb)
    requires src.assets[0].addr == rdb.assets[1].addr && src.assets[1].addr == rdb.assets[0].addr
    ensures Diffs(src.assets, rdb.assets) == Ok([Difference(src.assets[0], rdb.assets[1]),
                                                 Difference(src.assets[1], rdb.assets[0])])
  {
    DiffsAre(src, rdb);
    GapsCrossed(src.assets[0], src.assets[1], rdb.assets[0], rdb.assets[1]);
  }

  function Difference(sa: Asset, ra: Asset): Diff {
    Diff(sa.addr, Value(sa.amount) - Value(ra.amount))
  }

  lemma {:induction false} DiffTxOf(src: PoolInfo, rdb: PoolInfo, d0: Diff, d1: Diff, share: int)
    requires Numeric(src) && Numeric(rdb) && Diffs(src.assets, rdb.assets) == Ok([d0, d1])
    requires share == Value(src.totalShare) - Value(rdb.totalShare)
    ensures DiffTx(src, rdb) == Ok(TxBetween(src, d0, d1, share))
  {
  }

  /** What carries the sums of rows to the pool: `own` and `other` are the sums for its first
      and its second asset. */
  ghost predicate Carries(src: PoolInfo, rows: seq<Row>, own: int, other: int, d0: Diff, d1: Diff, share: int)
    requires |src.assets| == 2
  {
    && d0 == Diff(src.assets[0].addr, Value(src.assets[0].amount) - own)
    && d1 == Diff(src.assets[1].addr, Value(src.assets[1].amount) - other)
    && share == Value(src.totalShare) - SumShare(rows)
  }

  lemma {:induction false} FirstInOrder(less: (string, string) -> bool, src: PoolInfo, rows: seq<Row>, d0: Diff,
                                        d1: Diff, share: int)
    requires TwoAssets(src) && Numeric(src) && rows != []
    requires InOrder(rows, src.assets[0].addr, src.assets[1].addr)
    requires Carries(src, rows, Sum0(rows), Sum1(rows), d0, d1, share)
    ensures DiffTx(src, RecordedPool(less, src.contractAddr, rows)) == Ok(TxBetween(src, d0, d1, share))
  {
    var rdb := RecordedPool(less, src.contractAddr, rows);
    OneOrder(less, rows, src.assets[0].addr, src.assets[1].addr);
    RecordedIsNumeric(less, src.contractAddr, rows);
    DiffsInOrder(src, rdb);
    assert Difference(src.assets[0], rdb.assets[0]) == d0 && Difference(src.assets[1], rdb.assets[1]) == d1;
    DiffTxOf(src, rdb, d0, d1, share);
  }

  lemma {:induction false} FirstCrossed(less: (string, string) -> bool, src: PoolInfo, rows: seq<Row>, d0: Diff,
                                        d1: Diff, share: int)
    requires TwoAssets(src) && Numeric(src) && rows != []
    requires InOrder(rows, src.assets[1].addr, src.assets[0].addr)
    requires Carries(src, rows, Sum1(rows), Sum0(rows), d0, d1, share)
    ensures DiffTx(src, RecordedPool(less, src.contractAddr, rows)) == Ok(TxBetween(src, d0, d1, share))
  {
    var rdb := RecordedPool(less, src.contractAddr, rows);
    OneOrder(less, rows, src.assets[1].addr, src.assets[0].addr);
    RecordedIsNumeric(less, src.contractAddr, rows);
    DiffsCrossed(src, rdb);
    assert Difference(src.assets[0], rdb.assets[1]) == d0 && Difference(src.assets[1], rdb.assets[0]) == d1;
    DiffTxOf(src, rdb, d0, d1, share);
  }

  /** A record that names one asset twice is silent exactly when both sums are its amount. */
  lemma {:induction false} TwiceSilentIff(src: PoolInfo, rdb: PoolInfo)
    requires TwoAssets(src) && |rdb.assets| == 2 && Numeric(src) && Numeric(rdb) && Twice(src, rdb)
    ensures DiffTx(src, rdb).Ok?
    ensures var k := if rdb.assets[0].addr == src.assets[0].addr then 0 else 1;
            DiffTx(src, rdb) == Ok(None) <==>
              && Value(rdb.assets[0].amount) == Value(src.assets[k].amount) == Value(rdb.assets[1].amount)
              && Value(rdb.totalShare) == Value(src.totalShare)
  {
    var k := if rdb.assets[0].addr == src.assets[0].addr then 0 else 1;
    var (s, r0, r1) := (src.assets[k], rdb.assets[0], rdb.assets[1]);
    DiffsAre(src, rdb);
    GapsTwice(src.assets[0], src.assets[1], r0, r1);
    DiffTxOf(src, rdb, Difference(s, r0), Difference(s, r1), Value(src.totalShare) - Value(rdb.totalShare));
  }

  lemma {:induction false} GapsTwice(s0: Asset, s1: Asset, r0: Asset, r1: Asset)
    requires s0.addr != s1.addr && r0.addr == r1.addr && (r0.addr == s0.addr || r0.addr == s1.addr)
    ensures var s := if r0.addr == s0.addr then s0 else s1;
            Gap(s0, r0) + Gap(s0, r1) + (Gap(s1, r0) + Gap(s1, r1)) == [Difference(s, r0), Difference(s, r1)]
  {
    if r0.addr == s0.addr {
      assert Gap(s1, r0) == [] && Gap(s1, r1) == [];
    } else {
      assert Gap(s0, r0) == [] && Gap(s0, r1) == [];
    }
  }

  lemma {:induction false} SameSilentIff(src: PoolInfo, rdb: PoolInfo)
    requires TwoAssets(src) && |rdb.assets| == 2 && Numeric(src) && Numeric(rdb)
    requires src.assets[0].addr == rdb.assets[0].addr && src.assets[1].addr == rdb.assets[1].addr
    ensures DiffTx(src, rdb).Ok?
    ensures DiffTx(src, rdb) == Ok(None) <==>
              && Value(rdb.assets[0].amount) == Value(src.assets[0].amount)
              && Value(rdb.assets[1].amount) == Value(src.assets[1].amount)
              && Value(rdb.totalShare) == Value(src.totalShare)
  {
    DiffsAre(src, rdb);
  }

  /** The orders agree, or it does not show because the two amounts are the same, in the pool
      and in the record. */
  ghost predicate OrderIsHidden(src: PoolInfo, rows: seq<Row>, x: string)
    requires TwoAssets(src)
  {
    x == src.assets[0].addr || SameAmounts(src, rows)
  }

  predicate SameAmounts(src: PoolInfo, rows: seq<Row>)
    requires |src.assets| == 2
  {
    Value(src.assets[0].amount) == Value(src.assets[1].amount) && Sum0(rows) == Sum1(rows)
  }

  /** What the first checkpoint can store, and when the second one has nothing to write. */
  ghost predicate SecondOutcome(less: (string, string) -> bool, src: PoolInfo, rows: seq<Row>, hidden: bool)
    requires rows != []
  {
    var first, share := DiffTx(src, RecordedPool(less, src.contractAddr, rows)), Value(src.totalShare) - SumShare(rows);
    && first.Ok?
    && (first.value.Some? ==>
          var tx := first.value.value;
          && (ToRow(tx).None? <==> tx.kind == Withdraw && share < 0)
          && (ToRow(tx).Some? ==>
                var again := DiffTx(src, RecordedPool(less, src.contractAddr, rows + [ToRow(tx).value]));
                again.Ok? && (again.value.None? <==> hidden && (tx.kind == Withdraw ==> share == 0))))
  }

  /** The outcome, from the first transaction and from when the second one is silent. */
  lemma {:induction false} OutcomeFrom(less: (string, string) -> bool, src: PoolInfo, rows: seq<Row>, d0: Diff,
                                       d1: Diff, share: int, hidden: bool)
    requires rows != [] && share == Value(src.totalShare) - SumShare(rows)
    requires DiffTx(src, RecordedPool(less, src.contractAddr, rows)) == Ok(TxBetween(src, d0, d1, share))
    requires TxBetween(src, d0, d1, share).Some? && ToRow(TxBetween(src, d0, d1, share).value).Some? ==>
               var row := ToRow(TxBetween(src, d0, d1, share).value).value;
               var again := DiffTx(src, RecordedPool(less, src.contractAddr, rows + [row]));
               again.Ok? && (again.value.None? <==> hidden && row.lp == share)
    ensures SecondOutcome(less, src, rows, hidden)
  {
    if TxBetween(src, d0, d1, share).Some? { DifferenceStores(src, d0, d1, share); }
  }

  lemma {:induction false} SecondInOrder(less: (string, string) -> bool, src: PoolInfo, rows: seq<Row>, d0: Diff,
                                         d1: Diff, share: int)
    requires TwoAssets(src) && Numeric(src) && rows != []
    requires InOrder(rows, src.assets[0].addr, src.assets[1].addr)
    requires Carries(src, rows, Sum0(rows), Sum1(rows), d0, d1, share)
    ensures SecondOutcome(less, src, rows, true)
  {
    var tx := TxBetween(src, d0, d1, share);
    FirstInOrder(less, src, rows, d0, d1, share);
    if tx.Some? && ToRow(tx.value).Some? {
      DifferenceStores(src, d0, d1, share);
      AgainInOrder(less, src, rows, src.assets[0].addr, src.assets[1].addr, ToRow(tx.value).value);
    }
    OutcomeFrom(less, src, rows, d0, d1, share, true);
  }

  lemma {:induction false} SecondCrossed(less: (string, string) -> bool, src: PoolInfo, rows: seq<Row>, d0: Diff,
                                         d1: Diff, share: int)
    requires StrictTotalOrder(less) && TwoAssets(src) && Numeric(src) && rows != []
    requires InOrder(rows, src.assets[1].addr, src.assets[0].addr)
    requires Carries(src, rows, Sum1(rows), Sum0(rows), d0, d1, share)
    ensures SecondOutcome(less, src, rows, SameAmounts(src, rows))
  {
    var tx := TxBetween(src, d0, d1, share);
    FirstCrossed(less, src, rows, d0, d1, share);
    if tx.Some? && ToRow(tx.value).Some? {
      DifferenceStores(src, d0, d1, share);
      AgainCrossed(less, src, rows, src.assets[1].addr, src.assets[0].addr, ToRow(tx.value).value);
    }
    OutcomeFrom(less, src, rows, d0, d1, share, SameAmounts(src, rows));
  }

  /** The checkpoint after one that had something to write, over a pool that did not change.
      The first one cannot be stored exactly when it is a withdraw of a negative share. If it
      is stored, the second one has nothing to write exactly when the rows name the assets in
      the pool's order (or that is hidden) and the first one was no withdraw of a share. */
  lemma {:induction false} SecondCheckpoint(less: (string, string) -> bool, src: PoolInfo, rows: seq<Row>, x: string,
                                            y: string)
    requires StrictTotalOrder(less) && TwoAssets(src) && Numeric(src) && rows != [] && InOrder(rows, x, y)
    requires x != y && x in {src.assets[0].addr, src.assets[1].addr} && y in {src.assets[0].addr, src.assets[1].addr}
    ensures SecondOutcome(less, src, rows, OrderIsHidden(src, rows, x))
  {
    var own, other := if x == src.assets[0].addr then Sum0(rows) else Sum1(rows),
        if x == src.assets[0].addr then Sum1(rows) else Sum0(rows);
    var d0 := Diff(src.assets[0].addr, Value(src.assets[0].amount) - own);
    var d1 := Diff(src.assets[1].addr, Value(src.assets[1].amount) - other);
    if x == src.assets[0].addr {
      SecondInOrder(less, src, rows, d0, d1, Value(src.totalShare) - SumShare(rows));
    } else {
      SecondCrossed(less, src, rows, d0, d1, Value(src.totalShare) - SumShare(rows));
    }
  }

  lemma {:induction false} AgainInOrder(less: (string, string) -> bool, src: PoolInfo, rows: seq<Row>, x: string,
                                        y: string, row: Row)
    requires TwoAssets(src) && Numeric(src) && rows != [] && InOrder(rows, x, y)
    requires x == src.assets[0].addr == row.asset0 && y == src.assets[1].addr == row.asset1
    requires row.amount0 == Value(src.assets[0].amount) - Sum0(rows)
    requires row.amount1 == Value(src.assets[1].amount) - Sum1(rows)
    ensures var again := RecordedPool(less, src.contractAddr, rows + [row]);
            && DiffTx(src, again).Ok?
            && (DiffTx(src, again) == Ok(None) <==> row.lp == Value(src.totalShare) - SumShare(rows))
  {
    OneOrder(less, rows, x, y);
    OneRowMore(less, rows, row);
    RecordedIsNumeric(less, src.contractAddr, rows + [row]);
    SameSilentIff(src, RecordedPool(less, src.contractAddr, rows + [row]));
  }

  /** Rows in both orders have the later asset in both columns. */
  lemma {:induction false} AgainCrossed(less: (string, string) -> bool, src: PoolInfo, rows: seq<Row>, x: string,
                                        y: string, row: Row)
    requires StrictTotalOrder(less) && TwoAssets(src) && Numeric(src) && rows != [] && InOrder(rows, x, y)
    requires y == src.assets[0].addr == row.asset0 && x == src.assets[1].addr == row.asset1
    requires row.amount0 == Value(src.assets[0].amount) - Sum1(rows)
    requires row.amount1 == Value(src.assets[1].amount) - Sum0(rows)
    ensures var again := RecordedPool(less, src.contractAddr, rows + [row]);
            && DiffTx(src, again).Ok? && Twice(src, again)
            && (DiffTx(src, again) == Ok(None) <==>
                  && SameAmounts(src, rows)
                  && row.lp == Value(src.totalShare) - SumShare(rows))
  {
    OneOrder(less, rows, x, y);
    OneRowMore(less, rows, row);
    assert Later(less, x, y) == Later(less, y, x);
    RecordedIsNumeric(less, src.contractAddr, rows + [row]);
    TwiceSilentIff(src, RecordedPool(less, src.contractAddr, rows + [row]));
  }

  /** The two rows of a new pool. */
  lemma {:induction false} NewPairStores(src: PoolInfo)
    requires TwoAssets(src) && Numeric(src)
    ensures var txs, a, b := NewPairTxs(src), src.assets[0], src.assets[1];
            && ToRow(txs[0]) == Some(Row(a.addr, 0, b.addr, 0, 0))
            && ToRow(txs[1]) == Some(Row(a.addr, Value(a.amount), b.addr, Value(b.amount), Value(src.totalShare)))
  {
    ZeroIsNumber();
    NotEmpty(src.totalShare);
    assert src.assets[0] in src.assets && src.assets[1] in src.assets;
    NotEmpty(src.assets[0].amount);
    NotEmpty(src.assets[1].amount);
  }

  lemma {:induction false} ZeroIsNumber()
    ensures ToBigInt("0") == Some(0)
  {
    ZeroAmounts();
    assert Body("0") == "0";
  }

  lemma {:induction false} NotEmpty(s: string)
    requires ToBigInt(s).Some?
    ensures s != "" && EmptyStringToZero(s) == s && ToBigInt(s) == Some(Value(s))
  {
  }

  /** The two transactions of a new pool can be stored, and the next checkpoint is silent. */
  lemma {:induction false} NewPoolThenSilent(less: (string, string) -> bool, src: PoolInfo)
    requires TwoAssets(src) && Numeric(src)
    ensures var txs := NewPairTxs(src);
            && ToRow(txs[0]).Some? && ToRow(txs[1]).Some?
            && DiffTx(src, RecordedPool(less, src.contractAddr, [ToRow(txs[0]).value, ToRow(txs[1]).value])) == Ok(None)
  {
    NewPairStores(src);
    var (a, b) := (src.assets[0], src.assets[1]);
    RestoresSilently(less, src, Row(a.addr, 0, b.addr, 0, 0),
                     Row(a.addr, Value(a.amount), b.addr, Value(b.amount), Value(src.totalShare)));
  }

  lemma {:induction false} RestoresSilently(less: (string, string) -> bool, src: PoolInfo, r0: Row, r1: Row)
    requires TwoAssets(src) && Numeric(src)
    requires r0 == Row(src.assets[0].addr, 0, src.assets[1].addr, 0, 0)
    requires r1 == Row(src.assets[0].addr, Value(src.assets[0].amount), src.assets[1].addr,
                       Value(src.assets[1].amount), Value(src.totalShare))
    ensures DiffTx(src, RecordedPool(less, src.contractAddr, [r0, r1])) == Ok(None)
  {
    assert [r0, r1] == [r0] + [r1] && [r0][..0] == [];
    OneRowMore(less, [r0], r1);
    RecordedIsNumeric(less, src.contractAddr, [r0, r1]);
    SameSilentIff(src, RecordedPool(less, src.contractAddr, [r0, r1]));
  }

  /** A pool of 10 and 30 over a row in the other order: the checkpoint is stored, and the next
      one finds a difference again. */
  lemma {:induction false} CrossedIsNotSettled(less: (string, string) -> bool)
    requires StrictTotalOrder(less)
    ensures var src := PoolInfo("pair", [Asset("a", Format(10)), Asset("b", Format(30))], "lp", Format(1));
            var rows := [Row("b", 5, "a", 5, 1)];
            var first := DiffTx(src, RecordedPool(less, "pair", rows));
            && first.Ok? && first.value.Some? && ToRow(first.value.value).Some?
            && DiffTx(src, RecordedPool(less, "pair", rows + [ToRow(first.value.value).value])) != Ok(None)
  {
    var src := PoolInfo("pair", [Asset("a", Format(10)), Asset("b", Format(30))], "lp", Format(1));
    var rows := [Row("b", 5, "a", 5, 1)];
    FormatParses(10);
    FormatParses(30);
    FormatParses(1);
    assert rows[..0] == [];
    assert Sum0(rows) == 5 && Sum1(rows) == 5 && SumShare(rows) == 1;
    FirstCrossed(less, src, rows, Diff("a", 5), Diff("b", 25), 0);
    SecondCheckpoint(less, src, rows, "b", "a");
  }

  /** A pool that lost half of everything: its checkpoint cannot be stored. */
  lemma {:induction false} ShrunkPoolNotStored()
    ensures var src, rdb := PoolOf("a", "b"), PoolInfo("pair", [Asset("a", "20"), Asset("b", "20")], "", "2");
            && DiffTx(src, rdb).Ok? && DiffTx(src, rdb).value.Some?
            && ToRow(DiffTx(src, rdb).value.value).None?
  {
    var src, rdb := PoolOf("a", "b"), PoolInfo("pair", [Asset("a", "20"), Asset("b", "20")], "", "2");
    FormatParses(10);
    FormatParses(1);
    SmallNumbers();
    DiffsAre(src, rdb);
    DifferenceStores(src, Diff("a", -10), Diff("b", -10), -1);
  }

  lemma {:induction false} SmallNumbers()
    ensures ToBigInt("20") == Some(20) && ToBigInt("2") == Some(2)
  {
    assert Body("20") == "20" && Body("2") == "2" && "20"[..1] == "2" && "2"[..0] == "";
    assert Digits("") == 0;
    assert Digits("2") == 2;
    assert Digits("20") == 20;
  }
}
