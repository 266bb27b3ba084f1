/** Per-height statistics of pairs (pairStatsRecentUpdateTask.generateStats and searchPrice
    of aggregator/task.go).  Decimal amounts are reals; rounding is not modelled. */
module RecentStats {
  import opened Decimals

  datatype Price = Price(height: nat, price: real)

  type Prices = map<nat, seq<Price>>

  datatype Tx = Tx(pairId: nat, height: nat, timestamp: int, volume0: real, volume1: real, liquidity0: real,
                   liquidity1: real,
                   commission0: real, commission1: real, token0: nat, token1: nat, decimals0: nat, decimals1: nat)

  /** The amounts a row accumulates, as they are and in the price token. */
  datatype Flow = Flow(volume0: real, volume1: real, volume0InPrice: real, volume1InPrice: real,
                       commission0: real, commission1: real, commission0InPrice: real, commission1InPrice: real)

  datatype Row = Row(pairId: nat, height: nat, timestamp: int, flow: Flow,
                     liquidity0: real, liquidity1: real, liquidity0InPrice: real, liquidity1InPrice: real)

  const ZERO: Flow := Flow(0.0, 0.0, 0.0, 0.0, 0.0, 0.0, 0.0, 0.0)

  function Plus(a: Flow, b: Flow): Flow {
    Flow(a.volume0 + b.volume0, a.volume1 + b.volume1,
         a.volume0InPrice + b.volume0InPrice, a.volume1InPrice + b.volume1InPrice,
         a.commission0 + b.commission0, a.commission1 + b.commission1,
         a.commission0InPrice + b.commission0InPrice, a.commission1InPrice + b.commission1InPrice)
  }

  function Abs(x: real): real {
    if x < 0.0 then -x else x
  }

  // ---- prices ----

  /** The last price before the first one above the height; none gives zero. */
  function PriceAt(ps: seq<Price>, height: nat, default: real): real {
    if ps == [] || ps[0].height > height then default else PriceAt(ps[1..], height, ps[0].price)
  }

  function PriceOf(prices: Prices, token: nat, height: nat): real {
    if token in prices then PriceAt(prices[token], height, 0.0) else 0.0
  }

  method SearchPrice(token: nat, targetHeight: nat, prices: Prices) returns (price: real)
    ensures price == PriceOf(prices, token, targetHeight)
  {
    price := 0.0;
    if token in prices {
      var ps := prices[token];
      assert ps[0..] == ps;
      for i := 0 to |ps|
        invariant PriceAt(ps, targetHeight, 0.0) == PriceAt(ps[i..], targetHeight, price)
      {
        if ps[i].height > targetHeight {
          break;
        }
        assert ps[i..][1..] == ps[i + 1..];
        price := ps[i].price;
      }
    }
  }

  /** On a list ordered by height, this is the last price at or below the height. */
  lemma {:induction false} PriceIsLatest(ps: seq<Price>, height: nat, default: real)
    requires forall i, j :: 0 <= i < j < |ps| ==> ps[i].height <= ps[j].height
    ensures (forall i :: 0 <= i < |ps| ==> ps[i].height > height) ==> PriceAt(ps, height, default) == default
    ensures forall i :: 0 <= i < |ps| && ps[i].height <= height && (i + 1 < |ps| ==> ps[i + 1].height > height) ==>
              PriceAt(ps, height, default) == ps[i].price
  {
    if ps != [] && ps[0].height <= height {
      PriceIsLatest(ps[1..], height, ps[0].price);
      forall i | 0 <= i < |ps| && ps[i].height <= height && (i + 1 < |ps| ==> ps[i + 1].height > height)
        ensures PriceAt(ps, height, default) == ps[i].price
      {
        if i == 0 {
          forall j | 0 <= j < |ps[1..]| ensures ps[1..][j].height > height { assert ps[1].height <= ps[j + 1].height; }
        } else {
          assert ps[1..][i - 1] == ps[i] && (i < |ps[1..]| ==> ps[1..][i] == ps[i + 1]);
        }
      }
    }
  }

  // ---- rows ----

  function FlowOf(tx: Tx, prices: Prices): Flow {
    var p0, p1 := PriceOf(prices, tx.token0, tx.height), PriceOf(prices, tx.token1, tx.height);
    var d0, d1 := Pow10(tx.decimals0), Pow10(tx.decimals1);
    Flow(Abs(tx.volume0), Abs(tx.volume1), Abs(tx.volume0 / d0 * p0), Abs(tx.volume1 / d1 * p1),
         Abs(tx.commission0), Abs(tx.commission1), Abs(tx.commission0 / d0 * p0), Abs(tx.commission1 / d1 * p1))
  }

  function Opened(tx: Tx, prices: Prices): Row {
    Row(tx.pairId, tx.height, tx.timestamp, FlowOf(tx, prices), tx.liquidity0, tx.liquidity1,
        tx.liquidity0 / Pow10(tx.decimals0) * PriceOf(prices, tx.token0, tx.height),
        tx.liquidity1 / Pow10(tx.decimals1) * PriceOf(prices, tx.token1, tx.height))
  }

  /** The priced liquidity is taken from the row as it was, not from the transaction. */
  function Joined(row: Row, tx: Tx, prices: Prices): Row {
    Row(tx.pairId, tx.height, tx.timestamp, Plus(row.flow, FlowOf(tx, prices)), tx.liquidity0, tx.liquidity1,
        row.liquidity0 / Pow10(tx.decimals0) * PriceOf(prices, tx.token0, tx.height),
        row.liquidity1 / Pow10(tx.decimals1) * PriceOf(prices, tx.token1, tx.height))
  }

  function SumRows(rows: seq<Row>, p: nat, h: nat): Flow {
    if rows == [] then ZERO else
      var r := rows[|rows| - 1];
      Plus(SumRows(rows[..|rows| - 1], p, h), if r.pairId == p && r.height == h then r.flow else ZERO)
  }

  function SumTxs(txs: seq<Tx>, prices: Prices, p: nat, h: nat): Flow {
    if txs == [] then ZERO else
      var t := txs[|txs| - 1];
      Plus(SumTxs(txs[..|txs| - 1], prices, p, h), if t.pairId == p && t.height == h then FlowOf(t, prices) else ZERO)
  }

  function Size(x: real): real {
    if x < 0.0 then -x else x
  }

  lemma PlusSizes(was: Flow, now: Flow, v0: real, v1: real, v2: real, v3: real, c0: real, c1: real, c2: real, c3: real)
    requires now == Plus(was, Flow(Abs(v0), Abs(v1), Abs(v2), Abs(v3), Abs(c0), Abs(c1), Abs(c2), Abs(c3)))
    ensures now.volume0 == was.volume0 + Size(v0) && now.volume1 == was.volume1 + Size(v1)
    ensures now.volume0InPrice == was.volume0InPrice + Size(v2) && now.volume1InPrice == was.volume1InPrice + Size(v3)
    ensures now.commission0 == was.commission0 + Size(c0) && now.commission1 == was.commission1 + Size(c1)
    ensures now.commission0InPrice == was.commission0InPrice + Size(c2)
    ensures now.commission1InPrice == was.commission1InPrice + Size(c3)
  {
  }

  lemma {:induction false} SumTxsMore(txs: seq<Tx>, t: Tx, prices: Prices, p: nat, h: nat)
    ensures SumTxs(txs + [t], prices, p, h) ==
      Plus(SumTxs(txs, prices, p, h), if t.pairId == p && t.height == h then FlowOf(t, prices) else ZERO)
  {
    assert (txs + [t])[..|txs|] == txs;
  }

  lemma FlowIs(t: Tx, prices: Prices, d0: real, d1: real, p0: real, p1: real)
    requires d0 == Pow10(t.decimals0) && p0 == PriceOf(prices, t.token0, t.height)
    requires d1 == Pow10(t.decimals1) && p1 == PriceOf(prices, t.token1, t.height)
    ensures FlowOf(t, prices) ==
      Flow(Abs(t.volume0), Abs(t.volume1), Abs(t.volume0 / d0 * p0), Abs(t.volume1 / d1 * p1),
           Abs(t.commission0), Abs(t.commission1), Abs(t.commission0 / d0 * p0), Abs(t.commission1 / d1 * p1))
  {
  }

  /** The flow of a pair and height, amount by amount: each transaction adds the size of its
      amounts, as they are, and in units of its token at the token's price. */
  lemma {:induction false} FlowAddsUp(txs: seq<Tx>, t: Tx, prices: Prices, d0: real, d1: real, p0: real, p1: real)
    requires d0 == Pow10(t.decimals0) && p0 == PriceOf(prices, t.token0, t.height)
    requires d1 == Pow10(t.decimals1) && p1 == PriceOf(prices, t.token1, t.height)
    ensures var was := SumTxs(txs, prices, t.pairId, t.height);
            var now := SumTxs(txs + [t], prices, t.pairId, t.height);
            && now.volume0 == was.volume0 + Size(t.volume0)
            && now.volume1 == was.volume1 + Size(t.volume1)
            && now.volume0InPrice == was.volume0InPrice + Size(t.volume0 / d0 * p0)
            && now.volume1InPrice == was.volume1InPrice + Size(t.volume1 / d1 * p1)
            && now.commission0 == was.commission0 + Size(t.commission0)
            && now.commission1 == was.commission1 + Size(t.commission1)
            && now.commission0InPrice == was.commission0InPrice + Size(t.commission0 / d0 * p0)
            && now.commission1InPrice == was.commission1InPrice + Size(t.commission1 / d1 * p1)
  {
    SumTxsMore(txs, t, prices, t.pairId, t.height);
    FlowIs(t, prices, d0, d1, p0, p1);
    PlusSizes(SumTxs(txs, prices, t.pairId, t.height), SumTxs(txs + [t], prices, t.pairId, t.height),
              t.volume0, t.volume1, t.volume0 / d0 * p0, t.volume1 / d1 * p1,
              t.commission0, t.commission1, t.commission0 / d0 * p0, t.commission1 / d1 * p1);
  }

  /** A pair and height start from nothing, and other transactions leave them alone. */
  lemma {:induction false} FlowElsewhere(txs: seq<Tx>, t: Tx, prices: Prices, p: nat, h: nat)
    ensures SumTxs([], prices, p, h) == Flow(0.0, 0.0, 0.0, 0.0, 0.0, 0.0, 0.0, 0.0)
    ensures t.pairId != p || t.height != h ==> SumTxs(txs + [t], prices, p, h) == SumTxs(txs, prices, p, h)
  {
    SumTxsMore(txs, t, prices, p, h);
  }

  function CountRows(rows: seq<Row>, p: nat, h: nat): nat {
    if rows == [] then 0 else
      var r := rows[|rows| - 1];
      CountRows(rows[..|rows| - 1], p, h) + if r.pairId == p && r.height == h then 1 else 0
  }

  /** The height of the pair's last transaction, 0 if it has none. */
  function LastHeight(txs: seq<Tx>, p: nat): nat {
    if txs == [] then 0
    else if txs[|txs| - 1].pairId == p then txs[|txs| - 1].height else LastHeight(txs[..|txs| - 1], p)
  }

  /** How many separate runs of height `h` the pair's transactions have. */
  function Runs(txs: seq<Tx>, p: nat, h: nat): nat {
    if txs == [] then 0 else
      var n, t := |txs| - 1, txs[|txs| - 1];
      Runs(txs[..n], p, h) + if t.pairId == p && t.height == h && LastHeight(txs[..n], p) != h then 1 else 0
  }

  function Open(curr: map<nat, Row>, p: nat, h: nat): Flow {
    if p in curr && curr[p].height == h then curr[p].flow else ZERO
  }

  function OpenCount(curr: map<nat, Row>, p: nat, h: nat): nat {
    if p in curr && curr[p].height == h then 1 else 0
  }

  /** The open row of a pair is at the height of the pair's last transaction. */
  ghost predicate OpenAtLast(curr: map<nat, Row>, txs: seq<Tx>) {
    && (forall p: nat :: p in curr ==> curr[p].pairId == p && curr[p].height == LastHeight(txs, p) > 0)
    && (forall p: nat :: p !in curr ==> LastHeight(txs, p) == 0)
  }

  /** Closed and open rows together hold the flow of every pair and height. */
  ghost predicate FlowsTally(stats: seq<Row>, curr: map<nat, Row>, txs: seq<Tx>, prices: Prices) {
    forall p: nat, h: nat :: h > 0 ==> Plus(SumRows(stats, p, h), Open(curr, p, h)) == SumTxs(txs, prices, p, h)
  }

  /** There are as many rows, closed and open, as runs. */
  ghost predicate RowsTally(stats: seq<Row>, curr: map<nat, Row>, txs: seq<Tx>) {
    forall p: nat, h: nat :: h > 0 ==> CountRows(stats, p, h) + OpenCount(curr, p, h) == Runs(txs, p, h)
  }

  function TakeStats(stats: seq<Row>, curr: map<nat, Row>, tx: Tx): seq<Row> {
    if tx.pairId in curr && curr[tx.pairId].height != tx.height then stats + [curr[tx.pairId]] else stats
  }

  function TakeCurr(curr: map<nat, Row>, tx: Tx, prices: Prices): map<nat, Row> {
    if tx.pairId in curr && curr[tx.pairId].height == tx.height
        then curr[tx.pairId := Joined(curr[tx.pairId], tx, prices)]
    else curr[tx.pairId := Opened(tx, prices)]
  }

  lemma {:induction false} AddTx(txs: seq<Tx>, tx: Tx, prices: Prices, p: nat, h: nat)
    ensures SumTxs(txs + [tx], prices, p, h) ==
            Plus(SumTxs(txs, prices, p, h), if tx.pairId == p && tx.height == h then FlowOf(tx, prices) else ZERO)
    ensures Runs(txs + [tx], p, h) ==
            Runs(txs, p, h) + if tx.pairId == p && tx.height == h && LastHeight(txs, p) != h then 1 else 0
    ensures LastHeight(txs + [tx], p) == if tx.pairId == p then tx.height else LastHeight(txs, p)
  {
    assert (txs + [tx])[..|txs|] == txs;
  }

  lemma {:induction false} AddRow(rows: seq<Row>, r: Row, p: nat, h: nat)
    ensures SumRows(rows + [r], p, h) ==
            Plus(SumRows(rows, p, h), if r.pairId == p && r.height == h then r.flow else ZERO)
    ensures CountRows(rows + [r], p, h) == CountRows(rows, p, h) + if r.pairId == p && r.height == h then 1 else 0
  {
    assert (rows + [r])[..|rows|] == rows;
  }

  lemma TakeOpenAtLast(curr: map<nat, Row>, txs: seq<Tx>, tx: Tx, prices: Prices)
    requires OpenAtLast(curr, txs) && tx.height > 0
    ensures OpenAtLast(TakeCurr(curr, tx, prices), txs + [tx])
  {
    forall p: nat ensures LastHeight(txs + [tx], p) == if tx.pairId == p then tx.height else LastHeight(txs, p) {
      AddTx(txs, tx, prices, p, 0);
    }
  }

  lemma TakeFlows(stats: seq<Row>, curr: map<nat, Row>, txs: seq<Tx>, tx: Tx, prices: Prices)
    requires OpenAtLast(curr, txs) && FlowsTally(stats, curr, txs, prices)
    ensures FlowsTally(TakeStats(stats, curr, tx), TakeCurr(curr, tx, prices), txs + [tx], prices)
  {
    var rows, open := TakeStats(stats, curr, tx), TakeCurr(curr, tx, prices);
    forall p: nat, h: nat | h > 0 ensures Plus(SumRows(rows, p, h), Open(open, p, h)) ==
        SumTxs(txs + [tx], prices, p, h) {
      TakeFlow(stats, curr, txs, tx, prices, p, h);
    }
  }

  lemma {:induction false} TakeFlow(stats: seq<Row>, curr: map<nat, Row>, txs: seq<Tx>, tx: Tx, prices: Prices,
                                    p: nat, h: nat)
    requires OpenAtLast(curr, txs) && h > 0
    requires Plus(SumRows(stats, p, h), Open(curr, p, h)) == SumTxs(txs, prices, p, h)
    ensures Plus(SumRows(TakeStats(stats, curr, tx), p, h), Open(TakeCurr(curr, tx, prices), p, h))
         == SumTxs(txs + [tx], prices, p, h)
  {
    AddTx(txs, tx, prices, p, h);
    var row := RowFlows(curr, tx, prices);
    AddFlow(stats, curr, tx, row, FlowOf(tx, prices), SumTxs(txs, prices, p, h), p, h);
  }

  /** The row a transaction opens or joins, without regard to how its flow is computed. */
  lemma RowFlows(curr: map<nat, Row>, tx: Tx, prices: Prices) returns (row: Row)
    ensures TakeCurr(curr, tx, prices) == curr[tx.pairId := row] && IsNextRow(curr, tx, row, FlowOf(tx, prices))
  {
    row := if tx.pairId in curr && curr[tx.pairId].height == tx.height then Joined(curr[tx.pairId], tx, prices)
           else Opened(tx, prices);
  }

  ghost predicate IsNextRow(curr: map<nat, Row>, tx: Tx, row: Row, f: Flow) {
    && row.pairId == tx.pairId && row.height == tx.height
    && row.flow == if tx.pairId in curr && curr[tx.pairId].height == tx.height then Plus(curr[tx.pairId].flow, f) else f
  }

  lemma {:induction false} AddFlow(stats: seq<Row>, curr: map<nat, Row>, tx: Tx, row: Row, f: Flow, total: Flow,
                                   p: nat, h: nat)
    requires tx.pairId in curr ==> curr[tx.pairId].pairId == tx.pairId
    requires IsNextRow(curr, tx, row, f)
    requires Plus(SumRows(stats, p, h), Open(curr, p, h)) == total
    ensures Plus(SumRows(TakeStats(stats, curr, tx), p, h), Open(curr[tx.pairId := row], p, h))
         == Plus(total, if tx.pairId == p && tx.height == h then f else ZERO)
  {
    var base := SumRows(stats, p, h);
    if tx.pairId in curr && curr[tx.pairId].height != tx.height {
      var closed := curr[tx.pairId];
      AddRow(stats, closed, p, h);
      assert SumRows(TakeStats(stats, curr, tx), p, h) ==
          Plus(base, if p == tx.pairId && closed.height == h then closed.flow else ZERO);
    } else {
      assert SumRows(TakeStats(stats, curr, tx), p, h) == base;
    }
    PlusLaws(base, Open(curr, p, h), f);
    PlusLaws(base, ZERO, f);
  }

  lemma PlusLaws(a: Flow, b: Flow, c: Flow)
    ensures Plus(Plus(a, b), c) == Plus(a, Plus(b, c))
    ensures Plus(a, ZERO) == a && Plus(b, ZERO) == b && Plus(ZERO, c) == c
    ensures Plus(Plus(a, b), ZERO) == Plus(a, b)
  {
  }

  lemma TakeRows(stats: seq<Row>, curr: map<nat, Row>, txs: seq<Tx>, tx: Tx, prices: Prices)
    requires OpenAtLast(curr, txs) && RowsTally(stats, curr, txs)
    ensures RowsTally(TakeStats(stats, curr, tx), TakeCurr(curr, tx, prices), txs + [tx])
  {
    var row := RowFlows(curr, tx, prices);
    forall p: nat, h: nat | h > 0
      ensures CountRows(TakeStats(stats, curr, tx), p, h) + OpenCount(curr[tx.pairId := row], p, h) ==
          Runs(txs + [tx], p, h)
    {
      AddTx(txs, tx, prices, p, h);
      AddCount(stats, curr, tx, row, p, h);
      assert CountRows(stats, p, h) + OpenCount(curr, p, h) == Runs(txs, p, h);
    }
  }

  lemma {:induction false} AddCount(stats: seq<Row>, curr: map<nat, Row>, tx: Tx, row: Row, p: nat, h: nat)
    requires tx.pairId in curr ==> curr[tx.pairId].pairId == tx.pairId
    requires row.height == tx.height
    ensures CountRows(TakeStats(stats, curr, tx), p, h) + OpenCount(curr[tx.pairId := row], p, h)
         == CountRows(stats, p, h) + OpenCount(curr, p, h) +
            if tx.pairId == p && tx.height == h && !(p in curr && curr[p].height == h) then 1 else 0
  {
    if tx.pairId in curr { AddRow(stats, curr[tx.pairId], p, h); }
  }

  // ---- what a row shows ----

  /** The liquidity comes from one history row per pair and height. */
  ghost predicate LiquidityFixed(txs: seq<Tx>) {
    forall i, j :: 0 <= i < |txs| && 0 <= j < |txs| ==>
      txs[i].pairId == txs[j].pairId && txs[i].height == txs[j].height ==>
      txs[i].liquidity0 == txs[j].liquidity0 && txs[i].liquidity1 == txs[j].liquidity1
  }

  predicate Shows(r: Row, tx: Tx) {
    && r.pairId == tx.pairId && r.height == tx.height && r.timestamp == tx.timestamp
    && r.liquidity0 == tx.liquidity0 && r.liquidity1 == tx.liquidity1
  }

  /** The liquidity shown, at the prices of the row's height. */
  predicate LiquidityPriced(r: Row, tx: Tx, prices: Prices) {
    && r.liquidity0InPrice == r.liquidity0 / Pow10(tx.decimals0) * PriceOf(prices, tx.token0, r.height)
    && r.liquidity1InPrice == r.liquidity1 / Pow10(tx.decimals1) * PriceOf(prices, tx.token1, r.height)
  }

  /** The pair has no later transaction. */
  predicate LastOfItsPair(txs: seq<Tx>, i: nat) {
    i < |txs| && forall j :: i < j < |txs| ==> txs[j].pairId != txs[i].pairId
  }

  /** The pair's next transaction has another height. */
  ghost predicate LastOfItsRun(txs: seq<Tx>, i: nat) {
    exists j: nat :: NextDiffers(txs, i, j)
  }

  predicate NextDiffers(txs: seq<Tx>, i: nat, j: nat) {
    && i < j < |txs| && txs[j].pairId == txs[i].pairId && txs[j].height != txs[i].height
    && forall k :: i < k < j ==> txs[k].pairId != txs[i].pairId
  }

  /** The row shows the transaction and prices what it shows. */
  ghost predicate RowAt(r: Row, txs: seq<Tx>, prices: Prices, i: nat) {
    i < |txs| && Shows(r, txs[i]) && (LiquidityFixed(txs) ==> LiquidityPriced(r, txs[i], prices))
  }

  ghost predicate OpenFrom(r: Row, txs: seq<Tx>, prices: Prices) {
    exists i: nat :: RowAt(r, txs, prices, i) && LastOfItsPair(txs, i)
  }

  ghost predicate ClosedFrom(r: Row, txs: seq<Tx>, prices: Prices) {
    exists i: nat :: RowAt(r, txs, prices, i) && LastOfItsRun(txs, i)
  }

  /** A row shows the last transaction of a run of its pair at its height, and prices what it
      shows. */
  ghost predicate RowFrom(r: Row, txs: seq<Tx>, prices: Prices) {
    exists i: nat :: RowAt(r, txs, prices, i) && (LastOfItsPair(txs, i) || LastOfItsRun(txs, i))
  }

  ghost predicate AllFrom(stats: seq<Row>, curr: map<nat, Row>, txs: seq<Tx>, prices: Prices) {
    && (forall r :: r in stats ==> ClosedFrom(r, txs, prices))
    && (forall p :: p in curr ==> OpenFrom(curr[p], txs, prices))
  }

  lemma StaysAt(r: Row, txs: seq<Tx>, tx: Tx, prices: Prices, i: nat)
    requires RowAt(r, txs, prices, i)
    ensures RowAt(r, txs + [tx], prices, i)
  {
    var all := txs + [tx];
    assert all[i] == txs[i];
    if LiquidityFixed(all) { FixedBefore(txs, tx); }
  }

  lemma StaysClosed(r: Row, txs: seq<Tx>, tx: Tx, prices: Prices)
    requires ClosedFrom(r, txs, prices)
    ensures ClosedFrom(r, txs + [tx], prices)
  {
    var i: nat :| RowAt(r, txs, prices, i) && LastOfItsRun(txs, i);
    var j: nat :| NextDiffers(txs, i, j);
    StaysAt(r, txs, tx, prices, i);
    assert NextDiffers(txs + [tx], i, j);
  }

  /** A transaction of another pair leaves a row open. */
  lemma StaysOpen(r: Row, txs: seq<Tx>, tx: Tx, prices: Prices)
    requires OpenFrom(r, txs, prices) && r.pairId != tx.pairId
    ensures OpenFrom(r, txs + [tx], prices)
  {
    var i: nat :| RowAt(r, txs, prices, i) && LastOfItsPair(txs, i);
    StaysAt(r, txs, tx, prices, i);
    assert LastOfItsPair(txs + [tx], i);
  }

  /** One of the pair at another height closes it. */
  lemma OpenCloses(r: Row, txs: seq<Tx>, tx: Tx, prices: Prices)
    requires OpenFrom(r, txs, prices) && r.pairId == tx.pairId && r.height != tx.height
    ensures ClosedFrom(r, txs + [tx], prices)
  {
    var i: nat :| RowAt(r, txs, prices, i) && LastOfItsPair(txs, i);
    StaysAt(r, txs, tx, prices, i);
    assert NextDiffers(txs + [tx], i, |txs|);
  }

  lemma FixedBefore(txs: seq<Tx>, tx: Tx)
    requires LiquidityFixed(txs + [tx])
    ensures LiquidityFixed(txs)
    ensures forall i :: 0 <= i < |txs| && txs[i].pairId == tx.pairId && txs[i].height == tx.height ==>
      txs[i].liquidity0 == tx.liquidity0 && txs[i].liquidity1 == tx.liquidity1
  {
    var all := txs + [tx];
    assert forall i :: 0 <= i < |txs| ==> all[i] == txs[i];
    assert all[|txs|] == tx;
  }

  /** The row a transaction opens or joins shows the transaction. */
  lemma NewRowFrom(curr: map<nat, Row>, txs: seq<Tx>, tx: Tx, prices: Prices)
    requires tx.pairId in curr ==> curr[tx.pairId].pairId == tx.pairId && OpenFrom(curr[tx.pairId], txs, prices)
    ensures OpenFrom(TakeCurr(curr, tx, prices)[tx.pairId], txs + [tx], prices)
  {
    var all, row := txs + [tx], TakeCurr(curr, tx, prices)[tx.pairId];
    assert all[|txs|] == tx && Shows(row, tx);
    if LiquidityFixed(all) {
      FixedBefore(txs, tx);
      assert LiquidityPriced(row, tx, prices);
    }
    assert RowAt(row, all, prices, |txs|) && LastOfItsPair(all, |txs|);
  }

  lemma TakeFrom(stats: seq<Row>, curr: map<nat, Row>, txs: seq<Tx>, tx: Tx, prices: Prices)
    requires OwnPairs(curr) && AllFrom(stats, curr, txs, prices)
    ensures AllFrom(TakeStats(stats, curr, tx), TakeCurr(curr, tx, prices), txs + [tx], prices)
  {
    NewRowFrom(curr, txs, tx, prices);
    forall r | r in TakeStats(stats, curr, tx) ensures ClosedFrom(r, txs + [tx], prices) {
      if r in stats { StaysClosed(r, txs, tx, prices); } else { OpenCloses(r, txs, tx, prices); }
    }
    forall p | p in TakeCurr(curr, tx, prices) ensures OpenFrom(TakeCurr(curr, tx, prices)[p], txs + [tx], prices) {
      if p != tx.pairId { StaysOpen(curr[p], txs, tx, prices); }
    }
  }

  /** The rows, closed and open, are those of the transactions taken so far. */
  ghost predicate Taken(stats: seq<Row>, curr: map<nat, Row>, txs: seq<Tx>, prices: Prices) {
    && OpenAtLast(curr, txs) && FlowsTally(stats, curr, txs, prices)
    && RowsTally(stats, curr, txs) && AllFrom(stats, curr, txs, prices)
  }

  lemma TakeMore(stats: seq<Row>, curr: map<nat, Row>, txs: seq<Tx>, tx: Tx, prices: Prices)
    requires Taken(stats, curr, txs, prices) && tx.height > 0
    ensures Taken(TakeStats(stats, curr, tx), TakeCurr(curr, tx, prices), txs + [tx], prices)
  {
    TakeFrom(stats, curr, txs, tx, prices);
    TakeOpenAtLast(curr, txs, tx, prices);
    TakeFlows(stats, curr, txs, tx, prices);
    TakeRows(stats, curr, txs, tx, prices);
  }

  method FoldTxs(txs: seq<Tx>, prices: Prices) returns (stats: seq<Row>, currStatMap: map<nat, Row>)
    requires forall i :: 0 <= i < |txs| ==> txs[i].height > 0
    ensures Taken(stats, currStatMap, txs, prices)
  {
    stats, currStatMap := [], map[];
    ghost var taken: seq<Tx> := [];
    NothingTaken(prices);
    for i := 0 to |txs|
      invariant taken == txs[..i] && Taken(stats, currStatMap, taken, prices)
    {
      TakeMore(stats, currStatMap, taken, txs[i], prices);
      taken := taken + [txs[i]];
      stats, currStatMap := TakeTx(stats, currStatMap, txs[i], prices);
    }
    assert taken == txs;
  }

  lemma NothingTaken(prices: Prices)
    ensures Taken([], map[], [], prices)
  {
  }

  method TakeTx(stats0: seq<Row>, curr0: map<nat, Row>, tx: Tx, prices: Prices)
      returns (stats: seq<Row>, currStatMap: map<nat, Row>)
    ensures stats == TakeStats(stats0, curr0, tx) && currStatMap == TakeCurr(curr0, tx, prices)
  {
    stats, currStatMap := stats0, curr0;
    if tx.pairId in currStatMap && currStatMap[tx.pairId].height == tx.height {
      var joined := JoinTx(currStatMap[tx.pairId], tx, prices);
      currStatMap := currStatMap[tx.pairId := joined];
    } else {
      if tx.pairId in currStatMap {
        stats := stats + [currStatMap[tx.pairId]];
      }
      var first := OpenTx(tx, prices);
      currStatMap := currStatMap[tx.pairId := first];
    }
  }

  ghost predicate OwnPairs(curr: map<nat, Row>) {
    forall p: nat :: p in curr ==> curr[p].pairId == p
  }

  lemma {:induction false} FlushOne(stats: seq<Row>, curr: map<nat, Row>, q: nat, p: nat, h: nat)
    requires q in curr && OwnPairs(curr)
    ensures Plus(SumRows(stats + [curr[q]], p, h), Open(curr - {q}, p, h)) ==
        Plus(SumRows(stats, p, h), Open(curr, p, h))
    ensures CountRows(stats + [curr[q]], p, h) + OpenCount(curr - {q}, p, h) ==
        CountRows(stats, p, h) + OpenCount(curr, p, h)
  {
    AddRow(stats, curr[q], p, h);
  }

  /** The rows still open, appended in any order. */
  method FlushRemains(stats0: seq<Row>, curr: map<nat, Row>) returns (stats: seq<Row>)
    requires OwnPairs(curr)
    ensures forall p: nat, h: nat :: SumRows(stats, p, h) == Plus(SumRows(stats0, p, h), Open(curr, p, h))
    ensures forall p: nat, h: nat :: CountRows(stats, p, h) == CountRows(stats0, p, h) + OpenCount(curr, p, h)
    ensures forall r :: r in stats ==> r in stats0 || exists p :: p in curr && r == curr[p]
  {
    stats := stats0;
    var rest := curr;
    while rest != map[]
      invariant OwnPairs(rest) && Flushed(stats0, curr, stats, rest)
      invariant forall p :: p in rest ==> p in curr && rest[p] == curr[p]
      invariant forall r :: r in stats ==> r in stats0 || exists p :: p in curr && r == curr[p]
      decreases rest.Keys
    {
      assert rest.Keys != {};
      var q :| q in rest.Keys;
      FlushStep(stats0, curr, stats, rest, q);
      stats := stats + [rest[q]];
      rest := rest - {q};
    }
    FlushedAll(stats0, curr, stats);
  }

  lemma {:induction false} FlushedAll(stats0: seq<Row>, curr: map<nat, Row>, stats: seq<Row>)
    requires Flushed(stats0, curr, stats, map[])
    ensures forall p: nat, h: nat :: SumRows(stats, p, h) == Plus(SumRows(stats0, p, h), Open(curr, p, h))
    ensures forall p: nat, h: nat :: CountRows(stats, p, h) == CountRows(stats0, p, h) + OpenCount(curr, p, h)
  {
    forall p: nat, h: nat
      ensures SumRows(stats, p, h) == Plus(SumRows(stats0, p, h), Open(curr, p, h))
      ensures CountRows(stats, p, h) == CountRows(stats0, p, h) + OpenCount(curr, p, h)
    {
      assert Plus(SumRows(stats, p, h), Open(map[], p, h)) == Plus(SumRows(stats0, p, h), Open(curr, p, h));
      assert CountRows(stats, p, h) + OpenCount(map[], p, h) == CountRows(stats0, p, h) + OpenCount(curr, p, h);
    }
  }

  /** Rows and open rows together are what they were. */
  ghost predicate Flushed(stats0: seq<Row>, curr: map<nat, Row>, stats: seq<Row>, rest: map<nat, Row>) {
    && (forall p: nat, h: nat ::
          Plus(SumRows(stats, p, h), Open(rest, p, h)) == Plus(SumRows(stats0, p, h), Open(curr, p, h)))
    && (forall p: nat, h: nat ::
          CountRows(stats, p, h) + OpenCount(rest, p, h) == CountRows(stats0, p, h) + OpenCount(curr, p, h))
  }

  lemma FlushStep(stats0: seq<Row>, curr: map<nat, Row>, stats: seq<Row>, rest: map<nat, Row>, q: nat)
    requires OwnPairs(rest) && Flushed(stats0, curr, stats, rest) && q in rest
    ensures OwnPairs(rest - {q}) && Flushed(stats0, curr, stats + [rest[q]], rest - {q})
  {
    forall p: nat, h: nat
      ensures Plus(SumRows(stats + [rest[q]], p, h), Open(rest - {q}, p, h)) ==
          Plus(SumRows(stats0, p, h), Open(curr, p, h))
      ensures CountRows(stats + [rest[q]], p, h) + OpenCount(rest - {q}, p, h) ==
          CountRows(stats0, p, h) + OpenCount(curr, p, h)
    {
      FlushOne(stats, rest, q, p, h);
      assert Plus(SumRows(stats, p, h), Open(rest, p, h)) == Plus(SumRows(stats0, p, h), Open(curr, p, h));
      assert CountRows(stats, p, h) + OpenCount(rest, p, h) == CountRows(stats0, p, h) + OpenCount(curr, p, h);
    }
  }

  /** Whatever the order of the transactions, the rows hold for each pair and height the
      sums of the absolute inputs, in one row per run of that height.  Each row shows the
      liquidity of its pair and height, at the prices of that height. */
  method GenerateStats(txs: seq<Tx>, prices: Prices) returns (stats: seq<Row>)
    requires forall i :: 0 <= i < |txs| ==> txs[i].height > 0
    ensures forall p: nat, h: nat :: h > 0 ==> SumRows(stats, p, h) == SumTxs(txs, prices, p, h)
    ensures forall p: nat, h: nat :: h > 0 ==> CountRows(stats, p, h) == Runs(txs, p, h)
    ensures forall r :: r in stats ==> RowFrom(r, txs, prices)
  {
    var currStatMap;
    stats, currStatMap := FoldTxs(txs, prices);
    ghost var closed, open := stats, currStatMap;
    stats := FlushRemains(stats, currStatMap);
    forall r | r in stats ensures RowFrom(r, txs, prices) { EitherFrom(r, closed, open, txs, prices); }
  }

  lemma EitherFrom(r: Row, closed: seq<Row>, open: map<nat, Row>, txs: seq<Tx>, prices: Prices)
    requires AllFrom(closed, open, txs, prices) && (r in closed || exists p :: p in open && r == open[p])
    ensures RowFrom(r, txs, prices)
  {
    if r in closed { assert ClosedFrom(r, txs, prices); } else { assert OpenFrom(r, txs, prices); }
  }

  method OpenTx(tx: Tx, prices: Prices) returns (row: Row)
    ensures row == Opened(tx, prices)
  {
    var price0 := SearchPrice(tx.token0, tx.height, prices);
    var price1 := SearchPrice(tx.token1, tx.height, prices);
    var decimal0, decimal1 := Pow10(tx.decimals0), Pow10(tx.decimals1);
    row := Row(tx.pairId, tx.height, tx.timestamp,
               Flow(Abs(tx.volume0), Abs(tx.volume1), Abs(tx.volume0 / decimal0 * price0),
                    Abs(tx.volume1 / decimal1 * price1),
                    Abs(tx.commission0), Abs(tx.commission1), Abs(tx.commission0 / decimal0 * price0),
                    Abs(tx.commission1 / decimal1 * price1)),
               tx.liquidity0, tx.liquidity1, tx.liquidity0 / decimal0 * price0, tx.liquidity1 / decimal1 * price1);
  }

  method JoinTx(stat: Row, tx: Tx, prices: Prices) returns (row: Row)
    ensures row == Joined(stat, tx, prices)
  {
    var single := OpenTx(tx, prices);
    var price0 := SearchPrice(tx.token0, tx.height, prices);
    var price1 := SearchPrice(tx.token1, tx.height, prices);
    row := Row(tx.pairId, tx.height, tx.timestamp, Plus(stat.flow, single.flow), tx.liquidity0, tx.liquidity1,
               stat.liquidity0 / Pow10(tx.decimals0) * price0, stat.liquidity1 / Pow10(tx.decimals1) * price1);
  }

  // ---- one row per height ----

  ghost predicate HeightsRise(txs: seq<Tx>, p: nat) {
    forall i, j :: 0 <= i < j < |txs| && txs[i].pairId == p && txs[j].pairId == p ==> txs[i].height <= txs[j].height
  }

  lemma {:induction false} LastHeightIsTop(txs: seq<Tx>, p: nat)
    requires HeightsRise(txs, p) && forall i :: 0 <= i < |txs| ==> txs[i].height > 0
    ensures forall i :: 0 <= i < |txs| && txs[i].pairId == p ==> txs[i].height <= LastHeight(txs, p)
    ensures LastHeight(txs, p) > 0 ==>
        exists i :: 0 <= i < |txs| && txs[i].pairId == p && txs[i].height == LastHeight(txs, p)
  {
    if txs != [] && txs[|txs| - 1].pairId != p {
      LastHeightIsTop(txs[..|txs| - 1], p);
    }
  }

  /** When a pair's heights never fall, each of its heights has exactly one run. */
  lemma {:induction false} RisingHeightsOneRun(txs: seq<Tx>, p: nat, h: nat)
    requires HeightsRise(txs, p) && (forall i :: 0 <= i < |txs| ==> txs[i].height > 0) && h > 0
    ensures Runs(txs, p, h) == if exists i :: 0 <= i < |txs| && txs[i].pairId == p && txs[i].height == h then 1 else 0
  {
    if txs != [] {
      var n, t := |txs| - 1, txs[|txs| - 1];
      RisingHeightsOneRun(txs[..n], p, h);
      LastHeightIsTop(txs[..n], p);
      if t.pairId == p && t.height == h {
        if i :| 0 <= i < n && txs[i].pairId == p && txs[i].height == h {
          assert txs[..n][i] == txs[i];
          var j :| 0 <= j < n && txs[..n][j].pairId == p && txs[..n][j].height == LastHeight(txs[..n], p);
          assert txs[j].height <= t.height;
        }
      } else if i :| 0 <= i < |txs| && txs[i].pairId == p && txs[i].height == h {
        assert i < n && txs[..n][i] == txs[i];
      }
    }
  }

  /** Equal heights of the pair enclose no other height of the pair. */
  ghost predicate ContiguousAt(txs: seq<Tx>, p: nat, h: nat) {
    forall i, j, k :: !ComesBack(txs, p, h, i, j, k)
  }

  /** The height stands before and after another height of the pair. */
  predicate ComesBack(txs: seq<Tx>, p: nat, h: nat, i: int, j: int, k: int) {
    && 0 <= i < j < k < |txs| && IsAt(txs[i], p, h) && IsAt(txs[k], p, h)
    && txs[j].pairId == p && txs[j].height != h
  }

  ghost predicate Contiguous(txs: seq<Tx>, p: nat) {
    forall h: nat :: h > 0 ==> ContiguousAt(txs, p, h)
  }

  predicate IsAt(tx: Tx, p: nat, h: nat) {
    tx.pairId == p && tx.height == h
  }

  /** The last transaction of the pair, if it has one. */
  lemma {:induction false} LastOfPair(txs: seq<Tx>, p: nat) returns (l: nat)
    requires exists i :: 0 <= i < |txs| && txs[i].pairId == p
    ensures l < |txs| && IsAt(txs[l], p, LastHeight(txs, p))
    ensures forall i :: l < i < |txs| ==> txs[i].pairId != p
  {
    var n := |txs| - 1;
    if txs[n].pairId == p {
      l := n;
    } else {
      var i :| 0 <= i < |txs| && txs[i].pairId == p;
      assert txs[..n][i] == txs[i];
      l := LastOfPair(txs[..n], p);
      assert forall i :: l < i < n ==> txs[..n][i] == txs[i];
    }
  }

  lemma {:induction false} NoRunsIffAbsent(txs: seq<Tx>, p: nat, h: nat)
    requires h > 0
    ensures Runs(txs, p, h) == 0 <==> forall i :: 0 <= i < |txs| ==> !IsAt(txs[i], p, h)
  {
    if txs != [] {
      var n := |txs| - 1;
      NoRunsIffAbsent(txs[..n], p, h);
      assert forall i :: 0 <= i < n ==> txs[..n][i] == txs[i];
      if IsAt(txs[n], p, h) && LastHeight(txs[..n], p) == h {
        LastHeightIsSomewhere(txs[..n], p);
      }
    }
  }

  lemma {:induction false} LastHeightIsSomewhere(txs: seq<Tx>, p: nat)
    ensures LastHeight(txs, p) > 0 ==> exists i :: 0 <= i < |txs| && IsAt(txs[i], p, LastHeight(txs, p))
  {
    if txs != [] && txs[|txs| - 1].pairId != p {
      var n := |txs| - 1;
      LastHeightIsSomewhere(txs[..n], p);
      if LastHeight(txs, p) > 0 {
        var i :| 0 <= i < n && IsAt(txs[..n][i], p, LastHeight(txs, p));
        assert txs[i] == txs[..n][i];
      }
    }
  }

  /** A height has at most one row exactly if it is contiguous in the pair's transactions. */
  lemma {:induction false} OneRunIffContiguousAt(txs: seq<Tx>, p: nat, h: nat)
    requires h > 0
    ensures Runs(txs, p, h) <= 1 <==> ContiguousAt(txs, p, h)
  {
    if txs != [] {
      var n := |txs| - 1;
      var before := txs[..n];
      OneRunIffContiguousAt(before, p, h);
      NoRunsIffAbsent(before, p, h);
      assert forall i :: 0 <= i < n ==> before[i] == txs[i];
      if IsAt(txs[n], p, h) {
        LastStep(txs, p, h);
      } else {
        assert Runs(txs, p, h) == Runs(before, p, h);
        forall i, j, k ensures ComesBack(before, p, h, i, j, k) <==> ComesBack(txs, p, h, i, j, k) {}
      }
    }
  }

  lemma {:induction false} LastStep(txs: seq<Tx>, p: nat, h: nat)
    requires h > 0 && txs != [] && IsAt(txs[|txs| - 1], p, h)
    requires Runs(txs[..|txs| - 1], p, h) <= 1 <==> ContiguousAt(txs[..|txs| - 1], p, h)
    ensures Runs(txs, p, h) <= 1 <==> ContiguousAt(txs, p, h)
  {
    var n := |txs| - 1;
    var before := txs[..n];
    assert forall i :: 0 <= i < n ==> before[i] == txs[i];
    NoRunsIffAbsent(before, p, h);
    if i :| 0 <= i < n && IsAt(before[i], p, h) {
      assert before[i].pairId == p;
      var l := LastOfPair(before, p);
      if LastHeight(before, p) == h {
        SameHeightAgain(txs, p, h, l);
      } else {
        assert ComesBack(txs, p, h, i, l, n);
      }
    }
  }

  lemma {:induction false} SameHeightAgain(txs: seq<Tx>, p: nat, h: nat, l: nat)
    requires l < |txs| - 1 && IsAt(txs[l], p, h) && IsAt(txs[|txs| - 1], p, h)
    requires forall i :: l < i < |txs| - 1 ==> txs[i].pairId != p
    ensures ContiguousAt(txs, p, h) <==> ContiguousAt(txs[..|txs| - 1], p, h)
  {
    var n := |txs| - 1;
    var before := txs[..n];
    assert forall i :: 0 <= i < n ==> before[i] == txs[i];
    if i, j, k :| ComesBack(before, p, h, i, j, k) {
      assert ComesBack(txs, p, h, i, j, k);
    } else if i, j, k :| ComesBack(txs, p, h, i, j, k) {
      assert j < l;
      assert ComesBack(before, p, h, i, j, if k == n then l else k);
    }
  }

  /** Every height of a pair has at most one row exactly if no height of the pair comes back
      after another one. */
  lemma OneRunIffContiguous(txs: seq<Tx>, p: nat)
    ensures (forall h: nat :: h > 0 ==> AtMostOneRun(txs, p, h)) <==> Contiguous(txs, p)
  {
    forall h: nat | h > 0 ensures AtMostOneRun(txs, p, h) <==> ContiguousAt(txs, p, h) {
      OneRunIffContiguousAt(txs, p, h);
    }
  }

  predicate AtMostOneRun(txs: seq<Tx>, p: nat, h: nat) {
    Runs(txs, p, h) <= 1
  }

  /** Heights 1, 2, 1 of one pair give two rows for height 1. */
  lemma HeightThatComesBack(a: Tx, b: Tx, c: Tx)
    requires IsAt(a, 0, 1) && IsAt(b, 0, 2) && IsAt(c, 0, 1)
    ensures Runs([a, b, c], 0, 1) == 2 && !Contiguous([a, b, c], 0)
  {
    var txs := [a, b, c];
    assert txs[..2] == [a, b] && [a, b][..1] == [a] && [a][..0] == [];
    assert Runs([], 0, 1) == 0 && LastHeight([], 0) == 0;
    assert Runs([a], 0, 1) == 1 && Runs([a, b], 0, 1) == 1 && LastHeight([a, b], 0) == 2;
    assert Runs(txs, 0, 1) == 2;
    assert ComesBack(txs, 0, 1, 0, 1, 2);
    NotContiguous(txs, 0, 1);
  }

  lemma NotContiguous(txs: seq<Tx>, p: nat, h: nat)
    requires h > 0 && !ContiguousAt(txs, p, h)
    ensures !Contiguous(txs, p)
  {
  }

  /** With one row for a pair and height, that row has the whole flow. */
  lemma {:induction false} OnlyRowHasAll(rows: seq<Row>, r: Row, p: nat, h: nat)
    requires r in rows && r.pairId == p && r.height == h && CountRows(rows, p, h) <= 1
    ensures r.flow == SumRows(rows, p, h)
  {
    var n := |rows| - 1;
    if rows[n].pairId == p && rows[n].height == h {
      NoRowsNoSum(rows[..n], p, h);
      if r in rows[..n] { RowCounts(rows[..n], r, p, h); }
      assert r == rows[n];
      PlusLaws(ZERO, ZERO, r.flow);
    } else {
      OnlyRowHasAll(rows[..n], r, p, h);
      PlusLaws(SumRows(rows[..n], p, h), ZERO, ZERO);
    }
  }

  lemma {:induction false} RowCounts(rows: seq<Row>, r: Row, p: nat, h: nat)
    requires r in rows && r.pairId == p && r.height == h
    ensures CountRows(rows, p, h) > 0
  {
    var n := |rows| - 1;
    if rows[n] != r { RowCounts(rows[..n], r, p, h); }
  }

  lemma {:induction false} NoRowsNoSum(rows: seq<Row>, p: nat, h: nat)
    ensures CountRows(rows, p, h) == 0 ==> SumRows(rows, p, h) == ZERO
  {
    if rows != [] && CountRows(rows, p, h) == 0 {
      var n := |rows| - 1;
      NoRowsNoSum(rows[..n], p, h);
      assert !(rows[n].pairId == p && rows[n].height == h);
      assert SumRows(rows, p, h) == Plus(SumRows(rows[..n], p, h), ZERO);
      PlusLaws(ZERO, ZERO, ZERO);
    }
  }

  lemma {:induction false} SomeRow(rows: seq<Row>, p: nat, h: nat) returns (r: Row)
    requires CountRows(rows, p, h) > 0
    ensures r in rows && r.pairId == p && r.height == h
  {
    var n := |rows| - 1;
    if rows[n].pairId == p && rows[n].height == h { r := rows[n]; } else { r := SomeRow(rows[..n], p, h); }
  }

  /** What the statistics mean for a pair whose heights do not come back: each of its heights
      has one row, with the whole flow of the height, the liquidity of the height, and that
      liquidity at the prices of the height. */
  lemma OneRowPerHeight(txs: seq<Tx>, prices: Prices, stats: seq<Row>, p: nat, h: nat) returns (r: Row)
    requires h > 0 && Contiguous(txs, p) && exists i :: 0 <= i < |txs| && IsAt(txs[i], p, h)
    requires SumRows(stats, p, h) == SumTxs(txs, prices, p, h) && CountRows(stats, p, h) == Runs(txs, p, h)
    requires forall row :: row in stats ==> RowFrom(row, txs, prices)
    ensures CountRows(stats, p, h) == 1 && r in stats && r.pairId == p && r.height == h
    ensures r.flow == SumTxs(txs, prices, p, h) && RowFrom(r, txs, prices)
  {
    OneRunIffContiguousAt(txs, p, h);
    NoRunsIffAbsent(txs, p, h);
    r := SomeRow(stats, p, h);
    OnlyRowHasAll(stats, r, p, h);
  }

  /** The joining branch prices the liquidity of the row as it was.  That is the liquidity
      the new row shows exactly when the two are equal, as they are when both come from the
      history row of the pair and height, or when the price is zero. */
  lemma JoinedLiquidityPrice(row: Row, tx: Tx, prices: Prices)
    ensures var j, d, p := Joined(row, tx, prices), Pow10(tx.decimals0), PriceOf(prices, tx.token0, tx.height);
            j.liquidity0InPrice == j.liquidity0 / d * p <==> row.liquidity0 == tx.liquidity0 || p == 0.0
    ensures var j, d, p := Joined(row, tx, prices), Pow10(tx.decimals1), PriceOf(prices, tx.token1, tx.height);
            j.liquidity1InPrice == j.liquidity1 / d * p <==> row.liquidity1 == tx.liquidity1 || p == 0.0
  {
    Proportional(row.liquidity0, tx.liquidity0, Pow10(tx.decimals0), PriceOf(prices, tx.token0, tx.height));
    Proportional(row.liquidity1, tx.liquidity1, Pow10(tx.decimals1), PriceOf(prices, tx.token1, tx.height));
  }

  lemma Proportional(a: real, b: real, d: real, p: real)
    requires d > 0.0
    ensures a / d * p == b / d * p <==> a == b || p == 0.0
  {
    var x, y := a / d, b / d;
    assert a == x * d && b == y * d;
    assert x * p == y * p <==> (x - y) * p == 0.0;
  }
}
