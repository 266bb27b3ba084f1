/** The checkpoint builder: transactions that carry the recorded pools to the source's state
    (parser/checkpoint/builder.go). Amounts are decimal strings of any size. */
module Checkpoint {
  import opened Attempts
  import opened Options
  import opened Amounts

  datatype TxType = CreatePair | Swap | Provide | InitialProvide | Withdraw

  datatype Pair = Pair(contractAddr: string, asset0: string, asset1: string, lpAddr: string)

  /** A generated transaction; sender, hash and commission are constants in the source. */
  datatype Tx = Tx(kind: TxType, contractAddr: string, asset0: Asset, asset1: Asset, lpAddr: string, lpAmount: string)

  // ---- decimal strings ----

  function ToBigInt(s: string): Option<int> {
    if IsDigits(Body(s)) then Some(Value(s)) else None
  }

  function FormatNat(n: nat): (s: string)
    ensures IsDigits(s) && Digits(s) == n
  {
    var digit := (n % 10 + '0' as int) as char;
    if n < 10 then
      assert [digit][..0] == "";
      [digit]
    else
      var s := FormatNat(n / 10) + [digit];
      assert s[..|s| - 1] == FormatNat(n / 10);
      s
  }

  function Format(n: int): string {
    if n < 0 then "-" + FormatNat(-n) else FormatNat(n)
  }

  lemma FormatParses(n: int)
    ensures ToBigInt(Format(n)) == Some(n)
  {
    if n < 0 {
      assert Body(Format(n)) == FormatNat(-n);
    } else {
      assert IsDigit(FormatNat(n)[0]);
    }
  }

  // ---- balances ----

  /** What a list of assets holds of one of them. */
  function AmountIn(assets: seq<Asset>, addr: string): int {
    if assets == [] then 0 else Part(assets[0], addr) + AmountIn(assets[1..], addr)
  }

  function TxAmount(tx: Tx, addr: string): int {
    Part(tx.asset0, addr) + Part(tx.asset1, addr)
  }

  /** What transactions add to a pool's balance of an asset. */
  function Added(txs: seq<Tx>, contract: string, addr: string): int {
    if txs == [] then 0
    else (if txs[0].contractAddr == contract then TxAmount(txs[0], addr) else 0) + Added(txs[1..], contract, addr)
  }

  /** What transactions add to a pool's share. */
  function AddedShare(txs: seq<Tx>, contract: string): int {
    if txs == [] then 0
    else (if txs[0].contractAddr == contract then Value(txs[0].lpAmount) else 0) + AddedShare(txs[1..], contract)
  }

  lemma {:induction false} AddedConcat(a: seq<Tx>, b: seq<Tx>, contract: string, addr: string)
    ensures Added(a + b, contract, addr) == Added(a, contract, addr) + Added(b, contract, addr)
    ensures AddedShare(a + b, contract) == AddedShare(a, contract) + AddedShare(b, contract)
  {
    if a == [] {
      assert a + b == b;
    } else {
      assert (a + b)[1..] == a[1..] + b;
      AddedConcat(a[1..], b, contract, addr);
    }
  }

  lemma {:induction false} AddedElsewhere(txs: seq<Tx>, contract: string, addr: string)
    requires forall tx :: tx in txs ==> tx.contractAddr != contract
    ensures Added(txs, contract, addr) == 0 && AddedShare(txs, contract) == 0
  {
    if txs != [] {
      assert txs[0] in txs;
      AddedElsewhere(txs[1..], contract, addr);
    }
  }

  // ---- differences ----

  datatype Diff = Diff(addr: string, amount: int)

  /** The difference between a source and a recorded asset, if they are the same asset. */
  function Gap(sa: Asset, ra: Asset): seq<Diff> {
    if sa.addr == ra.addr then [Diff(sa.addr, Value(sa.amount) - Value(ra.amount))] else []
  }

  /** One source asset against the recorded ones with its address. */
  function DiffsOf(sa: Asset, rdb: seq<Asset>): Attempt<seq<Diff>> {
    if rdb == [] then Ok([])
    else
      var before := DiffsOf(sa, rdb[..|rdb| - 1]);
      var ra := rdb[|rdb| - 1];
      if before.Err? then Err
      else if sa.addr == ra.addr && (ToBigInt(sa.amount).None? || ToBigInt(ra.amount).None?) then Err
      else Ok(before.value + Gap(sa, ra))
  }

  function Diffs(src: seq<Asset>, rdb: seq<Asset>): Attempt<seq<Diff>> {
    if src == [] then Ok([])
    else
      var before := Diffs(src[..|src| - 1], rdb);
      if before.Err? then Err
      else
        var last := DiffsOf(src[|src| - 1], rdb);
        if last.Err? then Err else Ok(before.value + last.value)
  }

  method CalculateAssetDiff(src: seq<Asset>, rdb: seq<Asset>) returns (res: Attempt<seq<Diff>>)
    ensures res == Diffs(src, rdb)
  {
    var assetDiff: seq<Diff> := [];
    for i := 0 to |src|
      invariant Diffs(src[..i], rdb) == Ok(assetDiff)
    {
      assert src[..i + 1][..i] == src[..i];
      var own := MatchAsset(src[i], rdb);
      if own.Err? {
        DiffsFail(src, rdb, i + 1);
        return Err;
      }
      assetDiff := assetDiff + own.value;
    }
    assert src[..|src|] == src;
    return Ok(assetDiff);
  }

  /** The inner loop. */
  method MatchAsset(sa: Asset, rdb: seq<Asset>) returns (res: Attempt<seq<Diff>>)
    ensures res == DiffsOf(sa, rdb)
  {
    var own: seq<Diff> := [];
    for j := 0 to |rdb|
      invariant DiffsOf(sa, rdb[..j]) == Ok(own)
    {
      var ra := rdb[j];
      assert rdb[..j + 1][..j] == rdb[..j];
      if sa.addr == ra.addr {
        var sbi, rbi := ToBigInt(sa.amount), ToBigInt(ra.amount);
        if sbi.None? || rbi.None? {
          DiffsOfFails(sa, rdb, j + 1);
          return Err;
        }
        own := own + [Diff(sa.addr, sbi.value - rbi.value)];
      } else {
        assert own + Gap(sa, ra) == own;
      }
    }
    assert rdb[..|rdb|] == rdb;
    return Ok(own);
  }

  lemma {:induction false} DiffsOfFails(sa: Asset, rdb: seq<Asset>, j: nat)
    requires j <= |rdb| && DiffsOf(sa, rdb[..j]).Err?
    ensures DiffsOf(sa, rdb).Err?
  {
    if j < |rdb| {
      assert rdb[..|rdb| - 1][..j] == rdb[..j];
      DiffsOfFails(sa, rdb[..|rdb| - 1], j);
    } else {
      assert rdb[..j] == rdb;
    }
  }

  lemma {:induction false} DiffsFail(src: seq<Asset>, rdb: seq<Asset>, i: nat)
    requires i <= |src| && Diffs(src[..i], rdb).Err?
    ensures Diffs(src, rdb).Err?
  {
    if i < |src| {
      assert src[..|src| - 1][..i] == src[..i];
      DiffsFail(src[..|src| - 1], rdb, i);
    } else {
      assert src[..i] == src;
    }
  }

  /** The type: a swap only when the two differences have opposite signs, and a provide only
      when none is negative and one is positive. */
  function TypeOf(d0: int, d1: int): TxType {
    if d0 <= 0 && d1 <= 0 then Withdraw else if d0 >= 0 && d1 >= 0 then Provide else Swap
  }

  /** The transaction for two asset differences and a share difference; none for no difference. */
  function TxBetween(src: PoolInfo, d0: Diff, d1: Diff, share: int): Option<Tx> {
    if d0.amount == 0 && d1.amount == 0 && share == 0 then None
    else Some(Tx(TypeOf(d0.amount, d1.amount), src.contractAddr, Asset(d0.addr, Format(d0.amount)),
                 Asset(d1.addr, Format(d1.amount)), src.lpAddr, Format(share)))
  }

  function Minus(a: Option<int>, b: Option<int>): Option<int> {
    if a.None? || b.None? then None else Some(a.value - b.value)
  }

  function ShareDiff(src: PoolInfo, rdb: PoolInfo): Option<int> {
    Minus(ToBigInt(src.totalShare), ToBigInt(rdb.totalShare))
  }

  /** The transaction between a recorded pool and its source. */
  function DiffTx(src: PoolInfo, rdb: PoolInfo): Attempt<Option<Tx>> {
    var diffs, share := Diffs(src.assets, rdb.assets), ShareDiff(src, rdb);
    if diffs.Err? || |diffs.value| != 2 || share.None? then Err
    else Ok(TxBetween(src, diffs.value[0], diffs.value[1], share.value))
  }

  /** What the type of a difference means: a swap has one asset up and one down; a withdraw has
      none up, and a provide none down and one up. */
  lemma TypeMeans(src: PoolInfo, rdb: PoolInfo)
    requires DiffTx(src, rdb).Ok? && DiffTx(src, rdb).value.Some?
    ensures var tx := DiffTx(src, rdb).value.value;
            var (x, y) := (Value(tx.asset0.amount), Value(tx.asset1.amount));
            && (tx.kind == Swap <==> (x < 0 < y) || (y < 0 < x))
            && (tx.kind == Provide <==> x >= 0 && y >= 0 && (x > 0 || y > 0))
            && (tx.kind == Withdraw <==> x <= 0 && y <= 0)
            && tx.kind != CreatePair && tx.kind != InitialProvide
            && tx.contractAddr == src.contractAddr && tx.lpAddr == src.lpAddr
  {
    var diffs := Diffs(src.assets, rdb.assets).value;
    FormatParses(diffs[0].amount);
    FormatParses(diffs[1].amount);
  }

  /** The three flags of the asset differences. */
  method Signs(assetDiff: seq<Diff>)
    returns (isAssetDiffZero: bool, isAssetDiffPositiveAll: bool, isAssetDiffNegativeAll: bool)
    ensures isAssetDiffZero <==> forall j :: 0 <= j < |assetDiff| ==> assetDiff[j].amount == 0
    ensures isAssetDiffPositiveAll <==> forall j :: 0 <= j < |assetDiff| ==> assetDiff[j].amount >= 0
    ensures isAssetDiffNegativeAll <==> forall j :: 0 <= j < |assetDiff| ==> assetDiff[j].amount <= 0
  {
    isAssetDiffZero, isAssetDiffPositiveAll, isAssetDiffNegativeAll := true, true, true;
    for i := 0 to |assetDiff|
      invariant isAssetDiffZero <==> forall j :: 0 <= j < i ==> assetDiff[j].amount == 0
      invariant isAssetDiffPositiveAll <==> forall j :: 0 <= j < i ==> assetDiff[j].amount >= 0
      invariant isAssetDiffNegativeAll <==> forall j :: 0 <= j < i ==> assetDiff[j].amount <= 0
    {
      if assetDiff[i].amount < 0 {
        isAssetDiffZero, isAssetDiffPositiveAll := false, false;
      } else if assetDiff[i].amount > 0 {
        isAssetDiffZero, isAssetDiffNegativeAll := false, false;
      }
    }
  }

  method CreateDiffTx(src: PoolInfo, rdb: PoolInfo) returns (res: Attempt<Option<Tx>>)
    ensures res == DiffTx(src, rdb)
  {
    var assetDiff := CalculateAssetDiff(src.assets, rdb.assets);
    if assetDiff.Err? { return Err; }
    if |assetDiff.value| != 2 { return Err; }
    var share := CalculateShareDiff(src.totalShare, rdb.totalShare);
    if share.None? { return Err; }
    var tx := DiffToTx(src, assetDiff.value, share.value);
    return Ok(tx);
  }

  method CalculateShareDiff(src: string, rdb: string) returns (diff: Option<int>)
    ensures diff == Minus(ToBigInt(src), ToBigInt(rdb))
  {
    var spis := ToBigInt(src);
    if spis.None? { return None; }
    var rpis := ToBigInt(rdb);
    if rpis.None? { return None; }
    return Some(spis.value - rpis.value);
  }

  /** The flags of the differences decide whether there is a transaction, and its type. */
  method DiffToTx(src: PoolInfo, assetDiff: seq<Diff>, totalShareDiff: int) returns (tx: Option<Tx>)
    requires |assetDiff| == 2
    ensures tx == TxBetween(src, assetDiff[0], assetDiff[1], totalShareDiff)
  {
    var isAssetDiffZero, isAssetDiffPositiveAll, isAssetDiffNegativeAll := Signs(assetDiff);
    if isAssetDiffZero && totalShareDiff == 0 { return None; }
    var txType := Swap;
    if isAssetDiffZero { txType := Provide; }
    if isAssetDiffPositiveAll { txType := Provide; }
    if isAssetDiffNegativeAll { txType := Withdraw; }
    var d0, d1 := assetDiff[0], assetDiff[1];
    assert txType == TypeOf(d0.amount, d1.amount) && !(d0.amount == 0 && d1.amount == 0 && totalShareDiff == 0);
    return Some(Tx(txType, src.contractAddr, Asset(d0.addr, Format(d0.amount)),
                   Asset(d1.addr, Format(d1.amount)), src.lpAddr, Format(totalShareDiff)));
  }

  /** An empty pair, and then everything the pool holds as its initial provide. */
  function NewPairTxs(pi: PoolInfo): seq<Tx>
    requires |pi.assets| == 2
  {
    [Tx(CreatePair, pi.contractAddr, Asset(pi.assets[0].addr, "0"), Asset(pi.assets[1].addr, "0"), pi.lpAddr, "0"),
     Tx(InitialProvide, pi.contractAddr, pi.assets[0], pi.assets[1], pi.lpAddr, pi.totalShare)]
  }

  // ---- reconstruction ----

  predicate Numeric(pi: PoolInfo) {
    ToBigInt(pi.totalShare).Some? && forall a :: a in pi.assets ==> ToBigInt(a.amount).Some?
  }

  /** A pool of two different assets. */
  predicate TwoAssets(pi: PoolInfo) {
    |pi.assets| == 2 && pi.assets[0].addr != pi.assets[1].addr
  }

  /** The recorded pool has the source's two assets, in either order. */
  predicate SameAssets(src: PoolInfo, rdb: PoolInfo)
    requires TwoAssets(src) && |rdb.assets| == 2
  {
    var (a, b) := (src.assets[0].addr, src.assets[1].addr);
    var (x, y) := (rdb.assets[0].addr, rdb.assets[1].addr);
    (x == a && y == b) || (x == b && y == a)
  }

  ghost predicate Holds(src: PoolInfo, rdb: PoolInfo, txs: seq<Tx>) {
    && (forall addr :: AmountIn(rdb.assets, addr) + Added(txs, src.contractAddr, addr) == AmountIn(src.assets, addr))
    && Value(rdb.totalShare) + AddedShare(txs, src.contractAddr) == Value(src.totalShare)
  }

  ghost predicate Reconstructs(src: PoolInfo, rdb: PoolInfo) {
    DiffTx(src, rdb).Ok? && Holds(src, rdb, DiffTxs(src, rdb))
  }

  function DiffTxs(src: PoolInfo, rdb: PoolInfo): (txs: seq<Tx>)
    requires DiffTx(src, rdb).Ok?
  {
    if DiffTx(src, rdb).value.None? then [] else [DiffTx(src, rdb).value.value]
  }

  lemma {:induction false} DiffsOfTwo(sa: Asset, r0: Asset, r1: Asset)
    requires ToBigInt(sa.amount).Some? && ToBigInt(r0.amount).Some? && ToBigInt(r1.amount).Some?
    ensures DiffsOf(sa, [r0, r1]) == Ok(Gap(sa, r0) + Gap(sa, r1))
  {
    var one, two := [r0], [r0, r1];
    assert two[..|two| - 1] == one && one[..|one| - 1] == [];
    assert DiffsOf(sa, []) == Ok([]);
    assert DiffsOf(sa, one) == Ok([] + Gap(sa, r0));
    assert DiffsOf(sa, two) == Ok([] + Gap(sa, r0) + Gap(sa, r1));
    assert [] + Gap(sa, r0) == Gap(sa, r0);
  }

  lemma {:induction false} DiffsTwo(s0: Asset, s1: Asset, rdb: seq<Asset>)
    requires DiffsOf(s0, rdb).Ok? && DiffsOf(s1, rdb).Ok?
    ensures Diffs([s0, s1], rdb) == Ok(DiffsOf(s0, rdb).value + DiffsOf(s1, rdb).value)
  {
    var one, two := [s0], [s0, s1];
    assert two[..|two| - 1] == one && one[..|one| - 1] == [];
    assert Diffs([], rdb) == Ok([]);
    assert Diffs(one, rdb) == Ok([] + DiffsOf(s0, rdb).value);
    assert [] + DiffsOf(s0, rdb).value == DiffsOf(s0, rdb).value;
  }

  lemma {:induction false} AmountInTwo(assets: seq<Asset>, addr: string)
    requires |assets| == 2
    ensures AmountIn(assets, addr) == Part(assets[0], addr) + Part(assets[1], addr)
  {
    assert assets[1..] == [assets[1]];
    assert AmountIn([assets[1]], addr) == Part(assets[1], addr) + AmountIn([assets[1]][1..], addr);
  }

  /** The differences of a two-asset pool. */
  lemma DiffsAre(src: PoolInfo, rdb: PoolInfo)
    requires TwoAssets(src) && |rdb.assets| == 2 && Numeric(src) && Numeric(rdb)
    ensures var (s0, s1, r0, r1) := (src.assets[0], src.assets[1], rdb.assets[0], rdb.assets[1]);
            Diffs(src.assets, rdb.assets) == Ok(Gap(s0, r0) + Gap(s0, r1) + (Gap(s1, r0) + Gap(s1, r1)))
  {
    var (s0, s1, r0, r1) := (src.assets[0], src.assets[1], rdb.assets[0], rdb.assets[1]);
    assert src.assets == [s0, s1] && rdb.assets == [r0, r1];
    assert s0 in src.assets && s1 in src.assets && r0 in rdb.assets && r1 in rdb.assets;
    DiffsOfTwo(s0, r0, r1);
    DiffsOfTwo(s1, r0, r1);
    DiffsTwo(s0, s1, rdb.assets);
  }

  /** The signed amounts of the transaction are the differences. */
  lemma {:induction false} DiffTxAdds(src: PoolInfo, rdb: PoolInfo, addr: string)
    requires DiffTx(src, rdb).Ok?
    ensures var diffs := Diffs(src.assets, rdb.assets).value;
            var txs := DiffTxs(src, rdb);
            && Added(txs, src.contractAddr, addr) ==
               (if diffs[0].addr == addr then diffs[0].amount else 0) +
               (if diffs[1].addr == addr then diffs[1].amount else 0)
            && AddedShare(txs, src.contractAddr) == Value(src.totalShare) - Value(rdb.totalShare)
  {
    var diffs := Diffs(src.assets, rdb.assets).value;
    FormatParses(diffs[0].amount);
    FormatParses(diffs[1].amount);
    FormatParses(Value(src.totalShare) - Value(rdb.totalShare));
    var txs := DiffTxs(src, rdb);
    if txs != [] { SingleAdds(txs[0], addr); }
  }

  lemma {:induction false} SingleAdds(tx: Tx, addr: string)
    ensures Added([tx], tx.contractAddr, addr) == TxAmount(tx, addr)
    ensures AddedShare([tx], tx.contractAddr) == Value(tx.lpAmount)
  {
    assert [tx][1..] == [];
  }

  /** With the source's two assets recorded in either order, recorded totals plus the
      transaction are the source's totals, asset by asset, and its share. */
  lemma SameAssetsReconstruct(src: PoolInfo, rdb: PoolInfo)
    requires TwoAssets(src) && |rdb.assets| == 2 && Numeric(src) && Numeric(rdb)
    requires SameAssets(src, rdb)
    ensures Reconstructs(src, rdb)
  {
    DiffsAre(src, rdb);
    forall addr
      ensures AmountIn(rdb.assets, addr) + Added(DiffTxs(src, rdb), src.contractAddr, addr) ==
          AmountIn(src.assets, addr)
    {
      DiffTxAdds(src, rdb, addr);
      AmountInTwo(src.assets, addr);
      AmountInTwo(rdb.assets, addr);
    }
    DiffTxAdds(src, rdb, "");
  }

  /** The recorded pool has one of the source's assets twice. */
  predicate Twice(src: PoolInfo, rdb: PoolInfo)
    requires TwoAssets(src) && |rdb.assets| == 2
  {
    && rdb.assets[0].addr == rdb.assets[1].addr
    && (rdb.assets[0].addr == src.assets[0].addr || rdb.assets[0].addr == src.assets[1].addr)
  }

  /** Any other recorded assets are an error. */
  lemma OtherAssetsFail(src: PoolInfo, rdb: PoolInfo)
    requires TwoAssets(src) && |rdb.assets| == 2 && Numeric(src) && Numeric(rdb)
    ensures DiffTx(src, rdb).Ok? <==> SameAssets(src, rdb) || Twice(src, rdb)
  {
    DiffsAre(src, rdb);
  }

  /** An asset recorded twice is counted twice, and the other one is not accounted for. */
  lemma {:induction false} TwiceCounts(src: PoolInfo, rdb: PoolInfo, addr: string)
    requires TwoAssets(src) && |rdb.assets| == 2 && Numeric(src) && Numeric(rdb) && Twice(src, rdb)
    ensures DiffTx(src, rdb).Ok?
    ensures AmountIn(rdb.assets, addr) + Added(DiffTxs(src, rdb), src.contractAddr, addr) ==
            if addr == rdb.assets[0].addr then 2 * AmountIn(src.assets, addr) else 0
  {
    OtherAssetsFail(src, rdb);
    DiffsAre(src, rdb);
    DiffTxAdds(src, rdb, addr);
    AmountInTwo(src.assets, addr);
    AmountInTwo(rdb.assets, addr);
  }

  /** For every two-asset source pool and two recorded assets: the generated transaction
      reconstructs the source exactly when the recorded assets are the source's, in either
      order, or the source holds nothing and one of its assets is recorded twice. */
  lemma ReconstructsIff(src: PoolInfo, rdb: PoolInfo)
    requires TwoAssets(src) && |rdb.assets| == 2 && Numeric(src) && Numeric(rdb)
    ensures Reconstructs(src, rdb) <==>
      SameAssets(src, rdb) ||
      (Twice(src, rdb) && Value(src.assets[0].amount) == 0 && Value(src.assets[1].amount) == 0)
  {
    OtherAssetsFail(src, rdb);
    if SameAssets(src, rdb) {
      SameAssetsReconstruct(src, rdb);
    } else if Twice(src, rdb) {
      TwiceReconstructs(src, rdb);
    }
  }

  function PoolOf(a: string, b: string): PoolInfo {
    PoolInfo("pair", [Asset(a, Format(10)), Asset(b, Format(10))], "lp", Format(1))
  }

  /** A pool of `a` and `b` that is recorded as `a` twice gets a transaction all the same,
      and is not reconstructed. */
  lemma TwiceRecordedIsLost()
    ensures var src, rdb := PoolOf("a", "b"), PoolOf("a", "a");
            DiffTx(src, rdb).Ok? && !Reconstructs(src, rdb)
  {
    FormatParses(10);
    FormatParses(1);
    OtherAssetsFail(PoolOf("a", "b"), PoolOf("a", "a"));
    ReconstructsIff(PoolOf("a", "b"), PoolOf("a", "a"));
  }

  lemma TwiceReconstructs(src: PoolInfo, rdb: PoolInfo)
    requires TwoAssets(src) && |rdb.assets| == 2 && Numeric(src) && Numeric(rdb) && Twice(src, rdb)
    ensures Reconstructs(src, rdb) <==> Value(src.assets[0].amount) == 0 && Value(src.assets[1].amount) == 0
  {
    OtherAssetsFail(src, rdb);
    var a, b := src.assets[0].addr, src.assets[1].addr;
    AmountInTwo(src.assets, a);
    AmountInTwo(src.assets, b);
    if Value(src.assets[0].amount) == 0 && Value(src.assets[1].amount) == 0 {
      forall addr
        ensures AmountIn(rdb.assets, addr) + Added(DiffTxs(src, rdb), src.contractAddr, addr) ==
            AmountIn(src.assets, addr)
      {
        TwiceCounts(src, rdb, addr);
        AmountInTwo(src.assets, addr);
      }
      DiffTxAdds(src, rdb, "");
    } else {
      TwiceCounts(src, rdb, a);
      TwiceCounts(src, rdb, b);
    }
  }

  /** No transaction is generated exactly when the recorded pool already is the source's. */
  lemma SilentIffEqual(src: PoolInfo, rdb: PoolInfo)
    requires TwoAssets(src) && |rdb.assets| == 2 && Numeric(src) && Numeric(rdb)
    requires SameAssets(src, rdb)
    ensures DiffTx(src, rdb) == Ok(None) <==>
      && (forall addr :: AmountIn(rdb.assets, addr) == AmountIn(src.assets, addr))
      && Value(rdb.totalShare) == Value(src.totalShare)
  {
    SameAssetsReconstruct(src, rdb);
    assert Holds(src, rdb, DiffTxs(src, rdb));
    if DiffTx(src, rdb) == Ok(None) {
      forall addr
        ensures AmountIn(rdb.assets, addr) == AmountIn(src.assets, addr)
      {
        assert Added(DiffTxs(src, rdb), src.contractAddr, addr) == 0;
      }
    } else {
      SomethingAdds(src, rdb);
      if AddedShare(DiffTxs(src, rdb), src.contractAddr) == 0 {
        var addr :| Added(DiffTxs(src, rdb), src.contractAddr, addr) != 0;
        assert AmountIn(rdb.assets, addr) != AmountIn(src.assets, addr);
      }
    }
  }

  lemma SomethingAdds(src: PoolInfo, rdb: PoolInfo)
    requires TwoAssets(src) && |rdb.assets| == 2 && Numeric(src) && Numeric(rdb)
    requires SameAssets(src, rdb) && DiffTx(src, rdb).Ok? && DiffTx(src, rdb) != Ok(None)
    ensures (exists addr :: Added(DiffTxs(src, rdb), src.contractAddr, addr) != 0) ||
            AddedShare(DiffTxs(src, rdb), src.contractAddr) != 0
  {
    DiffsAre(src, rdb);
    var diffs := Diffs(src.assets, rdb.assets).value;
    assert diffs[0].addr != diffs[1].addr;
    DiffTxAdds(src, rdb, diffs[0].addr);
    DiffTxAdds(src, rdb, diffs[1].addr);
  }

  lemma {:induction false} NewPairReconstructs(src: PoolInfo, addr: string)
    requires |src.assets| == 2
    ensures Added(NewPairTxs(src), src.contractAddr, addr) == AmountIn(src.assets, addr)
    ensures AddedShare(NewPairTxs(src), src.contractAddr) == Value(src.totalShare)
  {
    ZeroAmounts();
    var txs := NewPairTxs(src);
    assert txs == [txs[0]] + [txs[1]];
    AddedConcat([txs[0]], [txs[1]], src.contractAddr, addr);
    SingleAdds(txs[0], addr);
    SingleAdds(txs[1], addr);
    AmountInTwo(src.assets, addr);
  }

  // ---- the whole checkpoint ----

  /** The recorded pool of a contract: the last row wins. */
  function Recorded(rdbs: seq<PoolInfo>, contract: string): Option<PoolInfo> {
    if rdbs == [] then None
    else if rdbs[|rdbs| - 1].contractAddr == contract then Some(rdbs[|rdbs| - 1])
    else Recorded(rdbs[..|rdbs| - 1], contract)
  }

  /** `Failed` is an error return. `Crashed`: the process stops on an array access. */
  datatype Run<T> = Done(value: T) | Failed | Crashed

  /** The transactions of one source pool; a new one must have two assets. */
  function TxsFor(pi: PoolInfo, recorded: Option<PoolInfo>): Run<seq<Tx>> {
    if recorded.None? then
      if |pi.assets| == 2 then Done(NewPairTxs(pi)) else Crashed
    else if DiffTx(pi, recorded.value).Err? then Failed
    else Done(DiffTxs(pi, recorded.value))
  }

  /** The transactions of all source pools, in order; the first pool that has none decides. */
  function AllTxs(srcs: seq<PoolInfo>, rdbs: seq<PoolInfo>): (all: Run<seq<Tx>>)
    ensures all.Done? ==> forall pi :: pi in srcs && Recorded(rdbs, pi.contractAddr).None? ==> |pi.assets| == 2
  {
    if srcs == [] then Done([])
    else
      var before := AllTxs(srcs[..|srcs| - 1], rdbs);
      if !before.Done? then before
      else
        var pi := srcs[|srcs| - 1];
        var txs := TxsFor(pi, Recorded(rdbs, pi.contractAddr));
        if !txs.Done? then txs else Done(before.value + txs.value)
  }

  /** The source pools that are not recorded yet. */
  function NewPools(srcs: seq<PoolInfo>, rdbs: seq<PoolInfo>): (pools: seq<PoolInfo>)
    ensures forall pi :: pi in pools <==> pi in srcs && Recorded(rdbs, pi.contractAddr).None?
  {
    if srcs == [] then []
    else
      assert srcs == srcs[..|srcs| - 1] + [srcs[|srcs| - 1]];
      NewPools(srcs[..|srcs| - 1], rdbs) +
      if Recorded(rdbs, srcs[|srcs| - 1].contractAddr).None? then [srcs[|srcs| - 1]] else []
  }

  /** The pair of a pool. */
  function PairOf(pi: PoolInfo): Pair
    requires |pi.assets| == 2
  {
    Pair(pi.contractAddr, pi.assets[0].addr, pi.assets[1].addr, pi.lpAddr)
  }

  function PairsOf(pools: seq<PoolInfo>): seq<Pair>
    requires forall pi :: pi in pools ==> |pi.assets| == 2
  {
    if pools == [] then [] else PairsOf(pools[..|pools| - 1]) + [PairOf(pools[|pools| - 1])]
  }

  /** The pairs the create transactions name. */
  function Created(txs: seq<Tx>): seq<Pair> {
    if txs == [] then []
    else
      var tx := txs[|txs| - 1];
      Created(txs[..|txs| - 1]) +
      if tx.kind == CreatePair then [Pair(tx.contractAddr, tx.asset0.addr, tx.asset1.addr, tx.lpAddr)] else []
  }

  lemma {:induction false} CreatedConcat(a: seq<Tx>, b: seq<Tx>)
    ensures Created(a + b) == Created(a) + Created(b)
  {
    if b == [] {
      assert a + b == a;
    } else {
      var n := |b| - 1;
      CreatedConcat(a, b[..n]);
      assert (a + b)[..|a + b| - 1] == a + b[..n];
    }
  }

  lemma CreatedFor(pi: PoolInfo, recorded: Option<PoolInfo>)
    requires TxsFor(pi, recorded).Done?
    ensures Created(TxsFor(pi, recorded).value) == if recorded.None? then [PairOf(pi)] else []
  {
    var txs := TxsFor(pi, recorded).value;
    if recorded.None? {
      assert txs == [txs[0]] + [txs[1]];
      CreatedConcat([txs[0]], [txs[1]]);
      CreatedOne(txs[0]);
      CreatedOne(txs[1]);
    } else if txs != [] {
      assert txs == [txs[0]];
      CreatedOne(txs[0]);
    }
  }

  lemma CreatedOne(tx: Tx)
    ensures Created([tx]) ==
      if tx.kind == CreatePair then [Pair(tx.contractAddr, tx.asset0.addr, tx.asset1.addr, tx.lpAddr)] else []
  {
    var one := [tx];
    assert one[..|one| - 1] == [];
    assert Created([]) == [];
  }

  /** What the pair of a new pool says, and the two transactions of the pool. */
  lemma NewPairMeans(pi: PoolInfo)
    requires |pi.assets| == 2
    ensures PairsOf([pi]) == [Pair(pi.contractAddr, pi.assets[0].addr, pi.assets[1].addr, pi.lpAddr)]
    ensures NewPairTxs(pi) == [
      Tx(CreatePair, pi.contractAddr, Asset(pi.assets[0].addr, "0"), Asset(pi.assets[1].addr, "0"), pi.lpAddr, "0"),
      Tx(InitialProvide, pi.contractAddr, pi.assets[0], pi.assets[1], pi.lpAddr, pi.totalShare)]
  {
    OnePairMore([], pi);
    assert [] + [pi] == [pi];
  }

  lemma {:induction false} OnePairMore(pools: seq<PoolInfo>, pi: PoolInfo)
    requires |pi.assets| == 2 && forall p :: p in pools ==> |p.assets| == 2
    ensures PairsOf(pools + [pi]) == PairsOf(pools) + [PairOf(pi)]
  {
    var more := pools + [pi];
    assert more[..|more| - 1] == pools;
  }

  /** A create transaction is generated for exactly the new pools. */
  lemma {:induction false} CreatedAreNew(srcs: seq<PoolInfo>, rdbs: seq<PoolInfo>)
    requires AllTxs(srcs, rdbs).Done?
    ensures Created(AllTxs(srcs, rdbs).value) == PairsOf(NewPools(srcs, rdbs))
  {
    if srcs != [] {
      var n := |srcs| - 1;
      CreatedAreNew(srcs[..n], rdbs);
      OneSourceMore(srcs, rdbs, n);
      assert srcs[..n + 1] == srcs;
      CreatedStep(AllTxs(srcs[..n], rdbs).value, NewPools(srcs[..n], rdbs), srcs[n],
                  Recorded(rdbs, srcs[n].contractAddr));
    }
  }

  lemma {:induction false} CreatedStep(txs: seq<Tx>, pools: seq<PoolInfo>, pi: PoolInfo, recorded: Option<PoolInfo>)
    requires forall p :: p in pools ==> |p.assets| == 2
    requires Created(txs) == PairsOf(pools) && TxsFor(pi, recorded).Done?
    ensures Created(txs + TxsFor(pi, recorded).value) == PairsOf(pools + if recorded.None? then [pi] else [])
  {
    CreatedFor(pi, recorded);
    CreatedConcat(txs, TxsFor(pi, recorded).value);
    if recorded.None? {
      OnePairMore(pools, pi);
    } else {
      assert pools + [] == pools;
    }
  }

  method GenerateCheckpointData(srcs: seq<PoolInfo>, rdbs: seq<PoolInfo>)
    returns (res: Run<(seq<Tx>, seq<PoolInfo>, seq<Pair>)>)
    ensures res.Failed? <==> AllTxs(srcs, rdbs).Failed?
    ensures res.Crashed? <==> AllTxs(srcs, rdbs).Crashed?
    ensures res.Done? ==> res.value.0 == AllTxs(srcs, rdbs).value
    ensures res.Done? ==> res.value.1 == NewPools(srcs, rdbs) && res.value.2 == PairsOf(NewPools(srcs, rdbs))
  {
    var rdbPoolInfoMap := IndexByContract(rdbs);
    var txs: seq<Tx>, pools: seq<PoolInfo> := [], [];
    for i := 0 to |srcs|
      invariant AllTxs(srcs[..i], rdbs) == Done(txs)
      invariant pools == NewPools(srcs[..i], rdbs)
    {
      var pi := srcs[i];
      assert pi in srcs;
      OneSourceMore(srcs, rdbs, i);
      var own := SourceTxs(pi, rdbPoolInfoMap);
      if !own.Done? {
        AllTxsFail(srcs, rdbs, i + 1);
        return if own.Failed? then Failed else Crashed;
      }
      txs := txs + own.value.0;
      pools := pools + own.value.1;
    }
    assert srcs[..|srcs|] == srcs;
    var pairs := CreatedPairs(txs);
    CreatedAreNew(srcs, rdbs);
    return Done((txs, pools, pairs));
  }

  /** One round of the loop: a difference for a recorded pool, a new pair for any other. */
  method SourceTxs(pi: PoolInfo, index: map<string, PoolInfo>) returns (res: Run<(seq<Tx>, seq<PoolInfo>)>)
    ensures var recorded := if pi.contractAddr in index then Some(index[pi.contractAddr]) else None;
            res == match TxsFor(pi, recorded)
                   case Failed => Failed
                   case Crashed => Crashed
                   case Done(txs) => Done((txs, if recorded.None? then [pi] else []))
  {
    if pi.contractAddr in index {
      var tx := CreateDiffTx(pi, index[pi.contractAddr]);
      if tx.Err? { return Failed; }
      return Done((if tx.value.Some? then [tx.value.value] else [], []));
    }
    if |pi.assets| != 2 { return Crashed; }
    return Done((NewPairTxs(pi), [pi]));
  }

  method IndexByContract(rdbs: seq<PoolInfo>) returns (index: map<string, PoolInfo>)
    ensures forall c :: (if c in index then Some(index[c]) else None) == Recorded(rdbs, c)
  {
    index := map[];
    for i := 0 to |rdbs|
      invariant forall c :: (if c in index then Some(index[c]) else None) == Recorded(rdbs[..i], c)
    {
      index := index[rdbs[i].contractAddr := rdbs[i]];
      assert rdbs[..i + 1][..i] == rdbs[..i];
    }
    assert rdbs[..|rdbs|] == rdbs;
  }

  method CreatedPairs(txs: seq<Tx>) returns (pairs: seq<Pair>)
    ensures pairs == Created(txs)
  {
    pairs := [];
    for i := 0 to |txs|
      invariant pairs == Created(txs[..i])
    {
      assert txs[..i + 1][..i] == txs[..i];
      if txs[i].kind == CreatePair {
        pairs := pairs + [Pair(txs[i].contractAddr, txs[i].asset0.addr, txs[i].asset1.addr, txs[i].lpAddr)];
      }
    }
    assert txs[..|txs|] == txs;
  }

  lemma {:induction false} OneSourceMore(srcs: seq<PoolInfo>, rdbs: seq<PoolInfo>, i: nat)
    requires i < |srcs| && AllTxs(srcs[..i], rdbs).Done?
    ensures var own := TxsFor(srcs[i], Recorded(rdbs, srcs[i].contractAddr));
            AllTxs(srcs[..i + 1], rdbs) ==
              if !own.Done? then own else Done(AllTxs(srcs[..i], rdbs).value + own.value)
    ensures NewPools(srcs[..i + 1], rdbs) == NewPools(srcs[..i], rdbs) +
              if Recorded(rdbs, srcs[i].contractAddr).None? then [srcs[i]] else []
  {
    var more := srcs[..i + 1];
    assert more[..|more| - 1] == srcs[..i] && more[|more| - 1] == srcs[i];
  }

  lemma {:induction false} AllTxsFail(srcs: seq<PoolInfo>, rdbs: seq<PoolInfo>, i: nat)
    requires i <= |srcs| && !AllTxs(srcs[..i], rdbs).Done?
    ensures AllTxs(srcs, rdbs) == AllTxs(srcs[..i], rdbs)
  {
    if i < |srcs| {
      assert srcs[..|srcs| - 1][..i] == srcs[..i];
      AllTxsFail(srcs[..|srcs| - 1], rdbs, i);
    } else {
      assert srcs[..i] == srcs;
    }
  }

  lemma TxsForOwnPool(pi: PoolInfo, recorded: Option<PoolInfo>)
    requires TxsFor(pi, recorded).Done?
    ensures forall tx :: tx in TxsFor(pi, recorded).value ==> tx.contractAddr == pi.contractAddr
  {
  }

  lemma {:induction false} TxsOfSources(srcs: seq<PoolInfo>, rdbs: seq<PoolInfo>, tx: Tx)
    requires AllTxs(srcs, rdbs).Done? && tx in AllTxs(srcs, rdbs).value
    ensures exists pi :: pi in srcs && pi.contractAddr == tx.contractAddr
  {
    var n := |srcs| - 1;
    var last := TxsFor(srcs[n], Recorded(rdbs, srcs[n].contractAddr));
    if tx in last.value {
      TxsForOwnPool(srcs[n], Recorded(rdbs, srcs[n].contractAddr));
      assert srcs[n] in srcs;
    } else {
      TxsOfSources(srcs[..n], rdbs, tx);
      var pi :| pi in srcs[..n] && pi.contractAddr == tx.contractAddr;
      assert pi in srcs;
    }
  }

  ghost predicate DistinctPools(srcs: seq<PoolInfo>) {
    forall i, j :: 0 <= i < j < |srcs| ==> srcs[i].contractAddr != srcs[j].contractAddr
  }

  /** Transactions of other pools add nothing to this one. */
  lemma {:induction false} OthersAddNothing(own: seq<Tx>, others: seq<Tx>, contract: string, addr: string)
    requires forall tx :: tx in others ==> tx.contractAddr != contract
    ensures Added(own + others, contract, addr) == Added(own, contract, addr)
    ensures Added(others + own, contract, addr) == Added(own, contract, addr)
    ensures AddedShare(own + others, contract) == AddedShare(own, contract)
    ensures AddedShare(others + own, contract) == AddedShare(own, contract)
  {
    AddedConcat(own, others, contract, addr);
    AddedConcat(others, own, contract, addr);
    AddedElsewhere(others, contract, addr);
  }

  lemma {:induction false} EarlierAreOthers(srcs: seq<PoolInfo>, rdbs: seq<PoolInfo>, n: nat)
    requires n < |srcs| && DistinctPools(srcs) && AllTxs(srcs[..n], rdbs).Done?
    ensures forall tx :: tx in AllTxs(srcs[..n], rdbs).value ==> tx.contractAddr != srcs[n].contractAddr
  {
    forall tx | tx in AllTxs(srcs[..n], rdbs).value ensures tx.contractAddr != srcs[n].contractAddr {
      TxsOfSources(srcs[..n], rdbs, tx);
    }
  }

  /** All the transactions of a checkpoint together add to a pool what its own do. */
  lemma {:induction false} OnlyOwnTxsCount(srcs: seq<PoolInfo>, rdbs: seq<PoolInfo>, i: nat, addr: string)
    requires i < |srcs| && DistinctPools(srcs) && AllTxs(srcs, rdbs).Done?
    ensures TxsFor(srcs[i], Recorded(rdbs, srcs[i].contractAddr)).Done?
    ensures var own := TxsFor(srcs[i], Recorded(rdbs, srcs[i].contractAddr)).value;
            var all := AllTxs(srcs, rdbs).value;
            && Added(all, srcs[i].contractAddr, addr) == Added(own, srcs[i].contractAddr, addr)
            && AddedShare(all, srcs[i].contractAddr) == AddedShare(own, srcs[i].contractAddr)
  {
    var n, contract := |srcs| - 1, srcs[i].contractAddr;
    AllTxsSplit(srcs, rdbs, n);
    var before := AllTxs(srcs[..n], rdbs).value;
    var last := TxsFor(srcs[n], Recorded(rdbs, srcs[n].contractAddr)).value;
    if i < n {
      OnlyOwnTxsCount(srcs[..n], rdbs, i, addr);
      TxsForOwnPool(srcs[n], Recorded(rdbs, srcs[n].contractAddr));
      OthersAddNothing(before, last, contract, addr);
    } else {
      EarlierAreOthers(srcs, rdbs, n);
      OthersAddNothing(last, before, contract, addr);
    }
  }

  lemma {:induction false} AllTxsSplit(srcs: seq<PoolInfo>, rdbs: seq<PoolInfo>, n: nat)
    requires n == |srcs| - 1 && AllTxs(srcs, rdbs).Done?
    ensures AllTxs(srcs[..n], rdbs).Done? && TxsFor(srcs[n], Recorded(rdbs, srcs[n].contractAddr)).Done?
    ensures AllTxs(srcs, rdbs).value ==
            AllTxs(srcs[..n], rdbs).value + TxsFor(srcs[n], Recorded(rdbs, srcs[n].contractAddr)).value
  {
  }

  /** After the checkpoint every source pool has the source's balances and share: what was
      recorded of it, if anything, plus all the generated transactions. */
  lemma {:induction false} CheckpointReconstructs(srcs: seq<PoolInfo>, rdbs: seq<PoolInfo>, i: nat, addr: string)
    requires forall pi :: pi in srcs ==> TwoAssets(pi) && Numeric(pi)
    requires DistinctPools(srcs) && i < |srcs| && AllTxs(srcs, rdbs).Done?
    requires var recorded := Recorded(rdbs, srcs[i].contractAddr);
             recorded.Some? ==>
               Numeric(recorded.value) && |recorded.value.assets| == 2 && SameAssets(srcs[i], recorded.value)
    ensures var src, txs := srcs[i], AllTxs(srcs, rdbs).value;
            match Recorded(rdbs, src.contractAddr)
            case None =>
              && Added(txs, src.contractAddr, addr) == AmountIn(src.assets, addr)
              && AddedShare(txs, src.contractAddr) == Value(src.totalShare)
            case Some(rdb) =>
              && AmountIn(rdb.assets, addr) + Added(txs, src.contractAddr, addr) == AmountIn(src.assets, addr)
              && Value(rdb.totalShare) + AddedShare(txs, src.contractAddr) == Value(src.totalShare)
  {
    var src := srcs[i];
    OnlyOwnTxsCount(srcs, rdbs, i, addr);
    match Recorded(rdbs, src.contractAddr)
    case None => NewPairReconstructs(src, addr);
    case Some(rdb) =>
      SameAssetsReconstruct(src, rdb);
      assert Holds(src, rdb, DiffTxs(src, rdb));
  }
}
