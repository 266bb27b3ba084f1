/** Tax payments: splitting off the tax transfers and deducting tax from gross pair amounts
    (parser/dex/terraswap/columbusv2/app.go). */
module Tax {
  import opened Options
  import opened Amounts
  import opened Dedup

  // ---- extracting the tax transfers ----

  datatype TaxKey = TaxKey(addr: string, amount: string, msgIndex: int)

  function KeyOfTax(t: ParsedTx): TaxKey {
    TaxKey(t.asset0.addr, t.asset0.amount, t.msgIndex)
  }

  /** The only filled slot, the first one if both are empty, when at most one is filled. */
  function FilledAsset(tx: ParsedTx): Asset {
    if tx.asset0.amount == "" then tx.asset1 else tx.asset0
  }

  /** A tax transfer is an outflow of one asset from a known pair. */
  function CandidateKey(tx: ParsedTx, pairs: set<string>): Option<TaxKey> {
    var a := FilledAsset(tx);
    if tx.sender !in pairs || (tx.asset0.amount != "" && tx.asset1.amount != "") || !IsOutflow(a.amount) then None
    else Some(TaxKey(a.addr, a.amount[1..], tx.msgIndex))
  }

  /** A candidate: its sender is a known pair, one slot is filled with a negative amount, and its
      key is that slot's address, the amount without the sign, and the message. */
  lemma CandidateMeans(tx: ParsedTx, pairs: set<string>, addr: string, amount: string, msgIndex: int)
    ensures CandidateKey(tx, pairs) == Some(TaxKey(addr, amount, msgIndex)) <==>
              && tx.sender in pairs && tx.msgIndex == msgIndex
              && ((tx.asset1.amount == "" && tx.asset0.amount == "-" + amount && tx.asset0.addr == addr) ||
                  (tx.asset0.amount == "" && tx.asset1.amount == "-" + amount && tx.asset1.addr == addr))
  {
    if tx.asset0.amount == "-" + amount { assert tx.asset0.amount[1..] == amount; }
    if tx.asset1.amount == "-" + amount { assert tx.asset1.amount[1..] == amount; }
    var a := FilledAsset(tx);
    if IsOutflow(a.amount) { assert a.amount == "-" + a.amount[1..]; }
  }

  /** The payments are counted by the address and amount of their first slot, and their message. */
  lemma {:induction false} TaxKeysAre(taxTxs: seq<ParsedTx>)
    ensures TaxKeys(taxTxs) == multiset(seq(|taxTxs|, i requires 0 <= i < |taxTxs| =>
              TaxKey(taxTxs[i].asset0.addr, taxTxs[i].asset0.amount, taxTxs[i].msgIndex)))
  {
    var keys := seq(|taxTxs|, i requires 0 <= i < |taxTxs| =>
      TaxKey(taxTxs[i].asset0.addr, taxTxs[i].asset0.amount, taxTxs[i].msgIndex));
    if taxTxs != [] {
      var n := |taxTxs| - 1;
      TaxKeysAre(taxTxs[..n]);
      var fewer := seq(|taxTxs[..n]|, i requires 0 <= i < |taxTxs[..n]| =>
        TaxKey(taxTxs[..n][i].asset0.addr, taxTxs[..n][i].asset0.amount, taxTxs[..n][i].msgIndex));
      assert keys == fewer + [keys[n]];
    }
  }

  function TaxKeys(taxTxs: seq<ParsedTx>): multiset<TaxKey> {
    if taxTxs == [] then multiset{} else TaxKeys(taxTxs[..|taxTxs| - 1]) + multiset{KeyOfTax(taxTxs[|taxTxs| - 1])}
  }

  /** Takes the transfers in order; a candidate whose key still has a tax payment uses it up. */
  function Split(counts: multiset<TaxKey>, txs: seq<ParsedTx>, pairs: set<string>): (seq<ParsedTx>, seq<ParsedTx>)
    decreases |txs|
  {
    if txs == [] then ([], []) else
      var k := CandidateKey(txs[0], pairs);
      if k.Some? && counts[k.value] > 0 then
        var rest := Split(counts - multiset{k.value}, txs[1..], pairs);
        ([txs[0]] + rest.0, rest.1)
      else
        var rest := Split(counts, txs[1..], pairs);
        (rest.0, [txs[0]] + rest.1)
  }

  lemma {:induction false} SplitNothing(txs: seq<ParsedTx>, pairs: set<string>)
    ensures Split(multiset{}, txs, pairs) == ([], txs)
  {
    if txs != [] {
      SplitNothing(txs[1..], pairs);
      assert txs == [txs[0]] + txs[1..];
    }
  }

  function CountOf(counts: map<TaxKey, nat>, k: TaxKey): nat {
    if k in counts then counts[k] else 0
  }

  method CountTaxes(taxTxs: seq<ParsedTx>) returns (counts: map<TaxKey, nat>)
    ensures forall k :: CountOf(counts, k) == TaxKeys(taxTxs)[k]
  {
    counts := map[];
    for i := 0 to |taxTxs|
      invariant forall k :: CountOf(counts, k) == TaxKeys(taxTxs[..i])[k]
    {
      assert taxTxs[..i + 1][..i] == taxTxs[..i];
      var k := KeyOfTax(taxTxs[i]);
      counts := counts[k := CountOf(counts, k) + 1];
    }
    assert taxTxs[..|taxTxs|] == taxTxs;
  }

  lemma AppendThen(a: seq<ParsedTx>, tx: ParsedTx, b: seq<ParsedTx>)
    ensures a + [tx] + b == a + ([tx] + b)
  {
  }

  method ExtractTaxTransfers(transferTxs: seq<ParsedTx>, taxTxs: seq<ParsedTx>, pairs: set<string>)
    returns (taxTransfers: seq<ParsedTx>, remaining: seq<ParsedTx>)
    ensures taxTransfers == Split(TaxKeys(taxTxs), transferTxs, pairs).0
    ensures remaining == Split(TaxKeys(taxTxs), transferTxs, pairs).1
  {
    if taxTxs == [] {
      SplitNothing(transferTxs, pairs);
      return [], transferTxs;
    }
    var taxCounts := CountTaxes(taxTxs);
    taxTransfers, remaining := [], [];
    ghost var counts := TaxKeys(taxTxs);
    ghost var goal := Split(counts, transferTxs, pairs);
    assert transferTxs[0..] == transferTxs;
    assert transferTxs[|transferTxs|..] == [];
    for i := 0 to |transferTxs|
      invariant forall k :: CountOf(taxCounts, k) == counts[k]
      invariant goal.0 == taxTransfers + Split(counts, transferTxs[i..], pairs).0
      invariant goal.1 == remaining + Split(counts, transferTxs[i..], pairs).1
    {
      var tx := transferTxs[i];
      assert transferTxs[i..][1..] == transferTxs[i + 1..];
      var k := CandidateKey(tx, pairs);
      if k.Some? && CountOf(taxCounts, k.value) > 0 {
        taxCounts := taxCounts[k.value := taxCounts[k.value] - 1];
        counts := counts - multiset{k.value};
        AppendThen(taxTransfers, tx, Split(counts, transferTxs[i + 1..], pairs).0);
        taxTransfers := taxTransfers + [tx];
      } else {
        AppendThen(remaining, tx, Split(counts, transferTxs[i + 1..], pairs).1);
        remaining := remaining + [tx];
      }
    }
  }

  /** `c` interleaves `a` and `b`. */
  ghost predicate Merges(a: seq<ParsedTx>, b: seq<ParsedTx>, c: seq<ParsedTx>)
    decreases |c|
  {
    if c == [] then a == [] && b == []
    else
      || (a != [] && a[0] == c[0] && Merges(a[1..], b, c[1..]))
      || (b != [] && b[0] == c[0] && Merges(a, b[1..], c[1..]))
  }

  /** How many transfers are candidates for the key. */
  function Candidates(txs: seq<ParsedTx>, pairs: set<string>, k: TaxKey): nat {
    if txs == [] then 0 else (if CandidateKey(txs[0], pairs) == Some(k) then 1 else 0) + Candidates(txs[1..], pairs, k)
  }

  function Min(a: nat, b: nat): nat { if a < b then a else b }

  /** The split keeps all transfers, in order; the tax side holds candidates only, for each
      key as many as there are tax payments and candidates, whichever is fewer. */
  lemma {:induction false} SplitIsExact(counts: multiset<TaxKey>, txs: seq<ParsedTx>, pairs: set<string>)
    ensures var s := Split(counts, txs, pairs);
            && Merges(s.0, s.1, txs)
            && (forall tx :: tx in s.0 ==> CandidateKey(tx, pairs).Some?)
            && forall k :: Candidates(s.0, pairs, k) == Min(counts[k], Candidates(txs, pairs, k))
    decreases |txs|
  {
    if txs != [] {
      var k := CandidateKey(txs[0], pairs);
      var s := Split(counts, txs, pairs);
      if k.Some? && counts[k.value] > 0 {
        SplitIsExact(counts - multiset{k.value}, txs[1..], pairs);
        var rest := Split(counts - multiset{k.value}, txs[1..], pairs);
        assert s.0[0] == txs[0] && s.0[1..] == rest.0;
      } else {
        SplitIsExact(counts, txs[1..], pairs);
        var rest := Split(counts, txs[1..], pairs);
        assert s.1[0] == txs[0] && s.1[1..] == rest.1;
      }
    }
  }

  lemma {:induction false} MergeNet(a: seq<ParsedTx>, b: seq<ParsedTx>, c: seq<ParsedTx>, pair: string, asset: string)
    requires Merges(a, b, c)
    ensures Net(c, pair, asset) == Net(a, pair, asset) + Net(b, pair, asset)
    decreases |c|
  {
    if c != [] {
      if a != [] && a[0] == c[0] && Merges(a[1..], b, c[1..]) {
        MergeNet(a[1..], b, c[1..], pair, asset);
      } else {
        MergeNet(a, b[1..], c[1..], pair, asset);
      }
    }
  }

  // ---- deducting tax from the gross amounts ----

  datatype PairKey = PairKey(addr: string, assetIdx: nat, absAmount: int, msgIdx: int)
  datatype QueueKey = QueueKey(addr: string, msgIdx: int)

  function KeyOfSlot(tx: ParsedTx, j: nat): PairKey {
    PairKey(tx.contract, j, Abs64(ParseInt64(Slot(tx, j).amount)), tx.msgIndex)
  }

  function WithAmount(tx: ParsedTx, j: nat, amount: string): ParsedTx {
    if j == 0 then tx.(asset0 := tx.asset0.(amount := amount)) else tx.(asset1 := tx.asset1.(amount := amount))
  }

  function QueueAt(queue: map<QueueKey, seq<int>>, k: QueueKey): seq<int> {
    if k in queue then queue[k] else []
  }

  datatype State = State(pairs: seq<ParsedTx>, index: map<PairKey, nat>, queue: map<QueueKey, seq<int>>)

  /** Every indexed key is the key of the slot it points to. */
  ghost predicate Indexed(pairs: seq<ParsedTx>, index: map<PairKey, nat>) {
    forall k :: k in index ==> k.assetIdx <= 1 && index[k] < |pairs| && KeyOfSlot(pairs[index[k]], k.assetIdx) == k
  }

  function NetSlot(tx: ParsedTx): nat {
    if tx.asset0.amount != "" then 0 else 1
  }

  function NetAmount(tx: ParsedTx): string {
    Slot(tx, NetSlot(tx)).amount
  }

  function GrossKey(tx: ParsedTx, tax: int): PairKey {
    PairKey(tx.contract, NetSlot(tx), Wrap64(Abs64(ParseInt64(NetAmount(tx))) + tax), tx.msgIndex)
  }

  function QueueKeyOf(tx: ParsedTx): QueueKey {
    QueueKey(Slot(tx, NetSlot(tx)).addr, tx.msgIndex)
  }

  /** The first queued tax that makes up a gross amount together with the transfer. */
  function FirstTax(index: map<PairKey, nat>, tx: ParsedTx, taxes: seq<int>): (m: nat)
    ensures m <= |taxes| && (m < |taxes| ==> GrossKey(tx, taxes[m]) in index)
    ensures forall n :: 0 <= n < m ==> GrossKey(tx, taxes[n]) !in index
  {
    if taxes == [] || GrossKey(tx, taxes[0]) in index then 0 else 1 + FirstTax(index, tx, taxes[1..])
  }

  /** Slot `j` of pair transaction `i` lost `tax` from the queue `key`. */
  datatype Deduction = Deduction(i: nat, j: nat, key: QueueKey, tax: int)

  function DeductOne(st: State, tx: ParsedTx): (State, Option<Deduction>) {
    var taxes := QueueAt(st.queue, QueueKeyOf(tx));
    var m := FirstTax(st.index, tx, taxes);
    if m == |taxes| then (st, None) else
      var key := GrossKey(tx, taxes[m]);
      var i := st.index[key];
      if i >= |st.pairs| then (st, None) else
        (State(st.pairs[i := WithAmount(st.pairs[i], NetSlot(tx), NetAmount(tx))], st.index - {key},
               st.queue[QueueKeyOf(tx) := Without(taxes, m)]),
         Some(Deduction(i, NetSlot(tx), QueueKeyOf(tx), taxes[m])))
  }

  function DeductAll(st: State, transfers: seq<ParsedTx>): (State, seq<Deduction>)
    decreases |transfers|
  {
    if transfers == [] then (st, []) else
      var one := DeductOne(st, transfers[0]);
      var rest := DeductAll(one.0, transfers[1..]);
      (rest.0, (if one.1.Some? then [one.1.value] else []) + rest.1)
  }

  /** The tax amounts paid in an asset under one message, in order. */
  function TaxesFor(taxTxs: seq<ParsedTx>, k: QueueKey): seq<int> {
    if taxTxs == [] then [] else
      var t := taxTxs[|taxTxs| - 1];
      TaxesFor(taxTxs[..|taxTxs| - 1], k) +
      if QueueKey(t.asset0.addr, t.msgIndex) == k then [ParseInt64(t.asset0.amount)] else []
  }

  /** The index has the last slot of every key that some non-empty slot has, and nothing else. */
  ghost predicate IndexComplete(index: map<PairKey, nat>, pairs: seq<ParsedTx>) {
    && (forall i: nat, j: nat :: SlotFound(index, pairs, i, j))
    && (forall k :: k in index ==> KeyFilled(index, pairs, k))
  }

  predicate SlotFound(index: map<PairKey, nat>, pairs: seq<ParsedTx>, i: nat, j: nat) {
    i < |pairs| && j <= 1 && Slot(pairs[i], j).amount != "" ==>
      KeyOfSlot(pairs[i], j) in index && index[KeyOfSlot(pairs[i], j)] >= i
  }

  predicate KeyFilled(index: map<PairKey, nat>, pairs: seq<ParsedTx>, k: PairKey)
    requires k in index
  {
    k.assetIdx <= 1 && index[k] < |pairs| && Slot(pairs[index[k]], k.assetIdx).amount != ""
  }

  method IndexPairTxs(pairs: seq<ParsedTx>) returns (index: map<PairKey, nat>)
    ensures Indexed(pairs, index) && IndexComplete(index, pairs)
  {
    index := map[];
    for i := 0 to |pairs|
      invariant Indexed(pairs, index) && IndexComplete(index, pairs[..i])
    {
      IndexStep(index, pairs, i);
      if pairs[i].asset0.amount != "" {
        index := index[KeyOfSlot(pairs[i], 0) := i];
      }
      if pairs[i].asset1.amount != "" {
        index := index[KeyOfSlot(pairs[i], 1) := i];
      }
    }
    assert pairs[..|pairs|] == pairs;
  }

  function IndexSlot(index: map<PairKey, nat>, tx: ParsedTx, i: nat, j: nat): map<PairKey, nat> {
    if Slot(tx, j).amount == "" then index else index[KeyOfSlot(tx, j) := i]
  }

  lemma IndexStep(index: map<PairKey, nat>, pairs: seq<ParsedTx>, i: nat)
    requires i < |pairs| && Indexed(pairs, index) && IndexComplete(index, pairs[..i])
    ensures var next := IndexSlot(IndexSlot(index, pairs[i], i, 0), pairs[i], i, 1);
            Indexed(pairs, next) && IndexComplete(next, pairs[..i + 1])
  {
    var mid := IndexSlot(index, pairs[i], i, 0);
    var next := IndexSlot(mid, pairs[i], i, 1);
    var was, now := pairs[..i], pairs[..i + 1];
    forall m: nat, j: nat ensures SlotFound(next, now, m, j) {
      if m < i {
        assert was[m] == now[m] && SlotFound(index, was, m, j);
        KeptAbove(index, was, pairs[i], i, m, j);
      }
    }
    forall k | k in next ensures KeyFilled(next, now, k) {
      if k in index { assert KeyFilled(index, was, k); }
    }
  }

  lemma KeptAbove(index: map<PairKey, nat>, was: seq<ParsedTx>, tx: ParsedTx, i: nat, m: nat, j: nat)
    requires m < i == |was| && SlotFound(index, was, m, j)
    ensures SlotFound(IndexSlot(IndexSlot(index, tx, i, 0), tx, i, 1), was, m, j)
  {
  }

  method QueueTaxes(taxTxs: seq<ParsedTx>) returns (queue: map<QueueKey, seq<int>>)
    ensures forall k :: QueueAt(queue, k) == TaxesFor(taxTxs, k)
  {
    queue := map[];
    for i := 0 to |taxTxs|
      invariant forall k :: QueueAt(queue, k) == TaxesFor(taxTxs[..i], k)
    {
      assert taxTxs[..i + 1][..i] == taxTxs[..i];
      var k := QueueKey(taxTxs[i].asset0.addr, taxTxs[i].msgIndex);
      queue := queue[k := QueueAt(queue, k) + [ParseInt64(taxTxs[i].asset0.amount)]];
    }
    assert taxTxs[..|taxTxs|] == taxTxs;
  }

  /** One turn of the loop: overwrites a gross amount in place. */
  method DeductTransfer(tx: ParsedTx, pairTxs: array<ParsedTx>, index0: map<PairKey, nat>,
                        queue0: map<QueueKey, seq<int>>)
    returns (pairTxIdx: map<PairKey, nat>, taxQueue: map<QueueKey, seq<int>>, ghost deduction: Option<Deduction>)
    requires Indexed(pairTxs[..], index0)
    modifies pairTxs
    ensures Indexed(pairTxs[..], pairTxIdx)
    ensures (State(pairTxs[..], pairTxIdx, taxQueue), deduction) ==
        DeductOne(State(old(pairTxs[..]), index0, queue0), tx)
  {
    pairTxIdx, taxQueue, deduction := index0, queue0, None;
    DeductKeepsIndex(State(pairTxs[..], index0, queue0), tx);
    var taxes := QueueAt(taxQueue, QueueKeyOf(tx));
    var m := FindTax(pairTxIdx, tx, taxes);
    if m < |taxes| {
      var key := GrossKey(tx, taxes[m]);
      var i := pairTxIdx[key];
      pairTxs[i] := WithAmount(pairTxs[i], NetSlot(tx), NetAmount(tx));
      pairTxIdx := pairTxIdx - {key};
      taxQueue := taxQueue[QueueKeyOf(tx) := Without(taxes, m)];
      deduction := Some(Deduction(i, NetSlot(tx), QueueKeyOf(tx), taxes[m]));
    }
  }

  /** The index and the queues start from the pair transactions and the tax payments. */
  method DeductTaxFromPairTxs(taxTxs: seq<ParsedTx>, pairTransferTxs: seq<ParsedTx>, pairTxs: array<ParsedTx>)
    returns (ghost start: State, ghost deductions: seq<Deduction>)
    modifies pairTxs
    ensures start.pairs == old(pairTxs[..]) && Indexed(start.pairs, start.index) &&
        IndexComplete(start.index, start.pairs)
    ensures forall k :: QueueAt(start.queue, k) == TaxesFor(taxTxs, k)
    ensures pairTxs[..] == DeductAll(start, pairTransferTxs).0.pairs
    ensures deductions == DeductAll(start, pairTransferTxs).1
  {
    var pairTxIdx := IndexPairTxs(pairTxs[..]);
    var taxQueue := QueueTaxes(taxTxs);
    start, deductions := State(pairTxs[..], pairTxIdx, taxQueue), [];
    assert pairTransferTxs[0..] == pairTransferTxs;
    assert [] + DeductAll(start, pairTransferTxs).1 == DeductAll(start, pairTransferTxs).1;
    for n := 0 to |pairTransferTxs|
      invariant Indexed(pairTxs[..], pairTxIdx)
      invariant DeductAll(start, pairTransferTxs) ==
                Later(deductions, DeductAll(State(pairTxs[..], pairTxIdx, taxQueue), pairTransferTxs[n..]))
    {
      ghost var st, d := State(pairTxs[..], pairTxIdx, taxQueue), None;
      pairTxIdx, taxQueue, d := DeductTransfer(pairTransferTxs[n], pairTxs, pairTxIdx, taxQueue);
      DeductStep(deductions, st, pairTransferTxs, n);
      deductions := deductions + if d.Some? then [d.value] else [];
    }
  }

  ghost function Later(deductions: seq<Deduction>, r: (State, seq<Deduction>)): (State, seq<Deduction>) {
    (r.0, deductions + r.1)
  }

  lemma {:induction false} DeductStep(deductions: seq<Deduction>, st: State, transfers: seq<ParsedTx>, n: nat)
    requires n < |transfers|
    ensures var one := DeductOne(st, transfers[n]);
            Later(deductions, DeductAll(st, transfers[n..])) ==
            Later(deductions + if one.1.Some? then [one.1.value] else [], DeductAll(one.0, transfers[n + 1..]))
  {
    assert transfers[n..][1..] == transfers[n + 1..];
    var one := DeductOne(st, transfers[n]);
    var d := if one.1.Some? then [one.1.value] else [];
    var rest := DeductAll(one.0, transfers[n + 1..]);
    assert deductions + (d + rest.1) == deductions + d + rest.1;
  }

  method FindTax(index: map<PairKey, nat>, tx: ParsedTx, taxes: seq<int>) returns (m: nat)
    ensures m == FirstTax(index, tx, taxes)
  {
    m := 0;
    assert taxes[0..] == taxes;
    while m < |taxes|
      invariant 0 <= m <= |taxes|
      invariant FirstTax(index, tx, taxes) == m + FirstTax(index, tx, taxes[m..])
    {
      if GrossKey(tx, taxes[m]) in index {
        return;
      }
      assert taxes[m..][1..] == taxes[m + 1..];
      m := m + 1;
    }
  }

  lemma {:induction false} DeductKeepsIndex(st: State, tx: ParsedTx)
    requires Indexed(st.pairs, st.index)
    ensures Indexed(DeductOne(st, tx).0.pairs, DeductOne(st, tx).0.index)
    ensures DeductOne(st, tx).1.None? <==>
            FirstTax(st.index, tx, QueueAt(st.queue, QueueKeyOf(tx))) == |QueueAt(st.queue, QueueKeyOf(tx))|
  {
    var taxes := QueueAt(st.queue, QueueKeyOf(tx));
    var m := FirstTax(st.index, tx, taxes);
    if m < |taxes| {
      var key := GrossKey(tx, taxes[m]);
      var i, after := st.index[key], DeductOne(st, tx).0;
      forall k | k in after.index
        ensures after.index[k] < |after.pairs| && KeyOfSlot(after.pairs[after.index[k]], k.assetIdx) == k
      {
        assert k in st.index && k != key;
        assert KeyOfSlot(st.pairs[st.index[k]], k.assetIdx) == k && KeyOfSlot(st.pairs[i], key.assetIdx) == key;
      }
    }
  }

  // ---- what a deduction does ----

  predicate SlotsFit(pairs: seq<ParsedTx>) {
    forall i :: 0 <= i < |pairs| ==> Fits(pairs[i].asset0.amount) && Fits(pairs[i].asset1.amount)
  }

  /** The transfer fits an int64, alone and together with any of the queued taxes. */
  ghost predicate NoOverflow(queue: map<QueueKey, seq<int>>, tx: ParsedTx) {
    Fits(NetAmount(tx)) &&
    forall k, m :: 0 <= m < |QueueAt(queue, k)| ==> 0 <= Abs(Value(NetAmount(tx))) + QueueAt(queue, k)[m] <= MAX_INT64
  }

  lemma SignOfValue(s: string)
    ensures IsOutflow(s) ==> Value(s) <= 0
    ensures !IsOutflow(s) ==> Value(s) >= 0
  {
  }

  lemma GrossIsNetPlusTax(pair: ParsedTx, j: nat, tx: ParsedTx, tax: int)
    requires KeyOfSlot(pair, j) == GrossKey(tx, tax) && Fits(Slot(pair, j).amount) && Fits(NetAmount(tx))
    requires 0 <= Abs(Value(NetAmount(tx))) + tax <= MAX_INT64
    ensures Abs(Value(Slot(pair, j).amount)) == Abs(Value(NetAmount(tx))) + tax
  {
    FitsAbs(NetAmount(tx));
    FitsAbs(Slot(pair, j).amount);
  }

  lemma DeductionShape(st: State, tx: ParsedTx)
    requires Indexed(st.pairs, st.index) && DeductOne(st, tx).1.Some?
    ensures var (after, d) := (DeductOne(st, tx).0, DeductOne(st, tx).1.value);
            && d.i < |st.pairs| && d.j == NetSlot(tx) && d.key == QueueKeyOf(tx)
            && after.pairs == st.pairs[d.i := WithAmount(st.pairs[d.i], d.j, NetAmount(tx))]
            && KeyOfSlot(st.pairs[d.i], d.j) == GrossKey(tx, d.tax)
            && exists m :: 0 <= m < |QueueAt(st.queue, d.key)| && QueueAt(st.queue, d.key)[m] == d.tax
  {
    var taxes := QueueAt(st.queue, QueueKeyOf(tx));
    var m := FirstTax(st.index, tx, taxes);
    assert GrossKey(tx, taxes[m]) in st.index;
  }

  /** The gross amount becomes the transfer's net amount: its size drops by exactly the tax.
      The match ignores signs, so the amount itself moves towards zero by the tax exactly
      when the net amount does not lie on the other side of zero. */
  lemma DeductionTakesTax(st: State, tx: ParsedTx)
    requires Indexed(st.pairs, st.index) && SlotsFit(st.pairs) && NoOverflow(st.queue, tx)
    requires DeductOne(st, tx).1.Some?
    ensures var (after, d) := (DeductOne(st, tx).0, DeductOne(st, tx).1.value);
            && d.i < |st.pairs| && d.j <= 1
            && after.pairs == st.pairs[d.i := WithAmount(st.pairs[d.i], d.j, NetAmount(tx))]
            && SlotsFit(after.pairs)
            && Abs(Value(Slot(st.pairs[d.i], d.j).amount)) == Abs(Value(NetAmount(tx))) + d.tax
            && st.pairs[d.i].contract == tx.contract && st.pairs[d.i].msgIndex == tx.msgIndex
            && d.j == (if tx.asset0.amount != "" then 0 else 1) && NetAmount(tx) == Slot(tx, d.j).amount
            && d.key == QueueKey(Slot(tx, d.j).addr, tx.msgIndex)
            && (TaxTaken(Slot(st.pairs[d.i], d.j).amount, NetAmount(tx), d.tax)
                <==> SameSide(Slot(st.pairs[d.i], d.j).amount, NetAmount(tx)))
  {
    var d := DeductOne(st, tx).1.value;
    DeductionShape(st, tx);
    GrossIsNetPlusTax(st.pairs[d.i], d.j, tx, d.tax);
    SignOfValue(NetAmount(tx));
    SignOfValue(Slot(st.pairs[d.i], d.j).amount);
  }

  lemma GrossIsKey(index: map<PairKey, nat>, tx: ParsedTx, tax: int)
    ensures Gross(index, tx, NetSlot(tx), tax) <==> GrossKey(tx, tax) in index
  {
  }

  /** When there is a deduction. */
  lemma {:induction false} DeductionIff(st: State, tx: ParsedTx)
    requires Indexed(st.pairs, st.index)
    ensures var j := if tx.asset0.amount != "" then 0 else 1;
            var taxes := QueueAt(st.queue, QueueKey(Slot(tx, j).addr, tx.msgIndex));
            DeductOne(st, tx).1.None? <==> forall m :: 0 <= m < |taxes| ==> !Gross(st.index, tx, j, taxes[m])
  {
    forall tax: int { GrossIsKey(st.index, tx, tax); }
  }

  /** It takes the first tax of the queue for which a slot has the gross amount. */
  lemma {:induction false} DeductionTakesFirst(st: State, tx: ParsedTx)
    requires Indexed(st.pairs, st.index) && DeductOne(st, tx).1.Some?
    ensures var d := DeductOne(st, tx).1.value;
            var taxes := QueueAt(st.queue, d.key);
            d.j <= 1 && exists m :: 0 <= m < |taxes| && d.tax == taxes[m] && Gross(st.index, tx, d.j, taxes[m])
                                    && forall k :: 0 <= k < m ==> !Gross(st.index, tx, d.j, taxes[k])
  {
    var taxes := QueueAt(st.queue, QueueKeyOf(tx));
    var m := FirstTax(st.index, tx, taxes);
    assert m < |taxes|;
    forall tax: int { GrossIsKey(st.index, tx, tax); }
  }

  /** Slot `j` of some pair transaction of the transfer's contract and message has the net amount
      plus the tax, by size and within 64 bits. */
  predicate Gross(index: map<PairKey, nat>, tx: ParsedTx, j: nat, tax: int)
    requires j <= 1
  {
    PairKey(tx.contract, j, Wrap64(Abs64(ParseInt64(Slot(tx, j).amount)) + tax), tx.msgIndex) in index
  }

  /** The signed amount moves towards zero by the tax. */
  predicate TaxTaken(gross: string, net: string, tax: int) {
    Value(net) == if IsOutflow(gross) then Value(gross) + tax else Value(gross) - tax
  }

  predicate SameSide(gross: string, net: string) {
    if IsOutflow(gross) then Value(net) <= 0 else Value(net) >= 0
  }

  function AbsOf(tx: ParsedTx): nat {
    Abs(Value(tx.asset0.amount)) + Abs(Value(tx.asset1.amount))
  }

  function TotalAbs(pairs: seq<ParsedTx>): nat {
    if pairs == [] then 0 else AbsOf(pairs[0]) + TotalAbs(pairs[1..])
  }

  function TaxSum(log: seq<Deduction>): int {
    if log == [] then 0 else log[0].tax + TaxSum(log[1..])
  }

  lemma {:induction false} TotalAbsUpdate(pairs: seq<ParsedTx>, i: nat, tx: ParsedTx)
    requires i < |pairs|
    ensures TotalAbs(pairs[i := tx]) == TotalAbs(pairs) - AbsOf(pairs[i]) + AbsOf(tx)
  {
    if i == 0 {
      assert pairs[0 := tx][1..] == pairs[1..];
    } else {
      assert pairs[i := tx][1..] == pairs[1..][i - 1 := tx];
      TotalAbsUpdate(pairs[1..], i - 1, tx);
    }
  }

  lemma QueueOnlyShrinks(st: State, tx: ParsedTx, k: QueueKey)
    ensures var one := DeductOne(st, tx);
            multiset(QueueAt(st.queue, k)) == multiset(QueueAt(one.0.queue, k)) +
              if one.1.Some? && one.1.value.key == k then multiset{one.1.value.tax} else multiset{}
  {
    var one := DeductOne(st, tx);
    if one.1.Some? && one.1.value.key == k {
      var taxes := QueueAt(st.queue, k);
      WithoutMultiset(taxes, FirstTax(st.index, tx, taxes));
    }
  }

  lemma NoOverflowLater(st: State, tx: ParsedTx, later: ParsedTx)
    requires NoOverflow(st.queue, later)
    ensures NoOverflow(DeductOne(st, tx).0.queue, later)
  {
    var after := DeductOne(st, tx).0;
    forall k, m | 0 <= m < |QueueAt(after.queue, k)|
      ensures 0 <= Abs(Value(NetAmount(later))) + QueueAt(after.queue, k)[m] <= MAX_INT64
    {
      QueueOnlyShrinks(st, tx, k);
      var x := QueueAt(after.queue, k)[m];
      assert x in multiset(QueueAt(after.queue, k));
      assert x in multiset(QueueAt(st.queue, k));
      var n :| 0 <= n < |QueueAt(st.queue, k)| && QueueAt(st.queue, k)[n] == x;
    }
  }

  /** The drop in total size of the pair amounts is exactly the tax consumed. */
  lemma {:induction false} DeductionsConserve(st: State, transfers: seq<ParsedTx>)
    requires Indexed(st.pairs, st.index) && SlotsFit(st.pairs)
    requires forall n :: 0 <= n < |transfers| ==> NoOverflow(st.queue, transfers[n])
    ensures TotalAbs(st.pairs) == TotalAbs(DeductAll(st, transfers).0.pairs) + TaxSum(DeductAll(st, transfers).1)
    decreases |transfers|
  {
    if transfers != [] {
      var one := DeductOne(st, transfers[0]);
      DeductKeepsIndex(st, transfers[0]);
      forall n | 0 <= n < |transfers[1..]| ensures NoOverflow(one.0.queue, transfers[1..][n]) {
        NoOverflowLater(st, transfers[0], transfers[n + 1]);
      }
      var rest := DeductAll(one.0, transfers[1..]);
      if one.1.Some? {
        var d := one.1.value;
        DeductionTakesTax(st, transfers[0]);
        TotalAbsUpdate(st.pairs, d.i, WithAmount(st.pairs[d.i], d.j, NetAmount(transfers[0])));
        assert ([d] + rest.1)[1..] == rest.1;
      } else {
        assert [] + rest.1 == rest.1;
      }
      DeductionsConserve(one.0, transfers[1..]);
    }
  }

  function TaxesIn(log: seq<Deduction>, k: QueueKey): multiset<int> {
    if log == [] then multiset{} else
      (if log[0].key == k then multiset{log[0].tax} else multiset{}) + TaxesIn(log[1..], k)
  }

  /** Each queued tax is used at most once: the queue splits into what was used and what is left. */
  lemma {:induction false} TaxesUsedOnce(st: State, transfers: seq<ParsedTx>, k: QueueKey)
    ensures multiset(QueueAt(st.queue, k)) ==
            multiset(QueueAt(DeductAll(st, transfers).0.queue, k)) + TaxesIn(DeductAll(st, transfers).1, k)
    decreases |transfers|
  {
    if transfers != [] {
      var one := DeductOne(st, transfers[0]);
      QueueOnlyShrinks(st, transfers[0], k);
      TaxesUsedOnce(one.0, transfers[1..], k);
      var rest := DeductAll(one.0, transfers[1..]);
      if one.1.Some? { assert ([one.1.value] + rest.1)[1..] == rest.1; } else { assert [] + rest.1 == rest.1; }
    }
  }

  /** Some key of the index still points to the slot. */
  ghost predicate Live(index: map<PairKey, nat>, i: nat, j: nat) {
    exists k :: k in index && index[k] == i && k.assetIdx == j
  }

  lemma DeductionUsesLiveSlot(st: State, tx: ParsedTx)
    requires Indexed(st.pairs, st.index)
    ensures var one := DeductOne(st, tx);
            && (one.1.Some? ==>
                  Live(st.index, one.1.value.i, one.1.value.j) && !Live(one.0.index, one.1.value.i, one.1.value.j))
            && (forall i, j :: Live(one.0.index, i, j) ==> Live(st.index, i, j))
  {
    var one := DeductOne(st, tx);
    assert forall k :: k in one.0.index ==> k in st.index && one.0.index[k] == st.index[k];
    if one.1.Some? {
      var d := one.1.value;
      var queue := QueueAt(st.queue, QueueKeyOf(tx));
      var key := GrossKey(tx, queue[FirstTax(st.index, tx, queue)]);
      assert key in st.index && st.index[key] == d.i && key.assetIdx == d.j;
      forall k | k in one.0.index && one.0.index[k] == d.i ensures k.assetIdx != d.j {
        assert KeyOfSlot(st.pairs[d.i], k.assetIdx) == k && KeyOfSlot(st.pairs[d.i], key.assetIdx) == key;
      }
    }
  }

  ghost predicate AllLive(index: map<PairKey, nat>, log: seq<Deduction>) {
    forall d :: d in log ==> Live(index, d.i, d.j)
  }

  ghost predicate DistinctSlots(log: seq<Deduction>) {
    forall a, b :: 0 <= a < b < |log| ==> log[a].i != log[b].i || log[a].j != log[b].j
  }

  lemma LiveInFront(before: map<PairKey, nat>, after: map<PairKey, nat>, d: Deduction, rest: seq<Deduction>)
    requires AllLive(after, rest) && DistinctSlots(rest)
    requires Live(before, d.i, d.j) && !Live(after, d.i, d.j)
    requires forall i, j :: Live(after, i, j) ==> Live(before, i, j)
    ensures AllLive(before, [d] + rest) && DistinctSlots([d] + rest)
  {
    var log := [d] + rest;
    forall b | 1 <= b < |log| ensures log[b] in rest && (log[b].i != d.i || log[b].j != d.j) {
      assert log[b] == rest[b - 1];
    }
  }

  /** No asset slot is deducted from twice. */
  lemma {:induction false} SlotsUsedOnce(st: State, transfers: seq<ParsedTx>)
    requires Indexed(st.pairs, st.index)
    ensures AllLive(st.index, DeductAll(st, transfers).1) && DistinctSlots(DeductAll(st, transfers).1)
    decreases |transfers|
  {
    if transfers != [] {
      var one := DeductOne(st, transfers[0]);
      DeductKeepsIndex(st, transfers[0]);
      DeductionUsesLiveSlot(st, transfers[0]);
      SlotsUsedOnce(one.0, transfers[1..]);
      var rest := DeductAll(one.0, transfers[1..]).1;
      if one.1.Some? {
        LiveInFront(st.index, one.0.index, one.1.value, rest);
      }
    }
  }

  const FlipTax := ParsedTx("", "", Asset("a", "1"), Asset("", ""), 0)
  const FlipInflow := ParsedTx("p", "u", Asset("a", "2"), Asset("b", ""), 0)

  /** A transfer into the pair can turn an outflow of the pair into an inflow: the pair sent
      3, a tax of 1 was paid, and a transfer brought in 2. */
  lemma {:induction false} DeductionCanFlipSign(st: State)
    requires st.pairs == [ParsedTx("p", "u", Asset("a", "-3"), Asset("b", ""), 0)]
    requires Indexed(st.pairs, st.index) && IndexComplete(st.index, st.pairs)
    requires forall k :: QueueAt(st.queue, k) == TaxesFor([FlipTax], k)
    ensures var after := DeductAll(st, [FlipInflow]).0.pairs;
            && |after| == 1 && Value(st.pairs[0].asset0.amount) == -3 && Value(after[0].asset0.amount) == 2
            && !SameSide(st.pairs[0].asset0.amount, NetAmount(FlipInflow))
  {
    SmallAmounts();
    OneTaxQueued();
    GrossOfFlip(st);
    assert [FlipInflow][1..] == [];
    assert DeductAll(st, [FlipInflow]).0 == DeductOne(st, FlipInflow).0;
  }

  lemma {:induction false} OneTaxQueued()
    ensures TaxesFor([FlipTax], QueueKey("a", 0)) == [1]
  {
    SmallAmounts();
    assert [FlipTax][..0] == [];
    assert TaxesFor([], QueueKey("a", 0)) == [];
  }

  lemma {:induction false} GrossOfFlip(st: State)
    requires st.pairs == [ParsedTx("p", "u", Asset("a", "-3"), Asset("b", ""), 0)]
    requires Indexed(st.pairs, st.index) && IndexComplete(st.index, st.pairs)
    ensures GrossKey(FlipInflow, 1) in st.index && st.index[GrossKey(FlipInflow, 1)] == 0
    ensures FirstTax(st.index, FlipInflow, [1]) == 0
  {
    SmallAmounts();
    assert KeyOfSlot(st.pairs[0], 0) == GrossKey(FlipInflow, 1) == PairKey("p", 0, 3, 0);
    assert SlotFound(st.index, st.pairs, 0, 0);
  }

  lemma SmallAmounts()
    ensures Value("-3") == -3 && Value("2") == 2 && Value("1") == 1
  {
    assert Body("-3") == "3" && Body("2") == "2" && Body("1") == "1";
    assert "3"[..0] == "" && "2"[..0] == "" && "1"[..0] == "";
    assert Digits("3") == 3 && Digits("2") == 2 && Digits("1") == 1;
  }

  lemma {:induction false} DeductAllMore(st: State, transfers: seq<ParsedTx>, tx: ParsedTx)
    ensures var (was, now) := (DeductAll(st, transfers), DeductAll(st, transfers + [tx]));
            && now.0 == DeductOne(was.0, tx).0
            && now.1 == was.1 + if DeductOne(was.0, tx).1.Some? then [DeductOne(was.0, tx).1.value] else []
    decreases |transfers|
  {
    if transfers == [] {
      assert [tx][1..] == [] && [] + [tx] == [tx];
    } else {
      assert (transfers + [tx])[1..] == transfers[1..] + [tx];
      DeductAllMore(DeductOne(st, transfers[0]).0, transfers[1..], tx);
    }
  }

  /** Deductions take away from the index and the queues, and add nothing. */
  ghost predicate Shrinks(before: State, after: State) {
    && (forall k :: k in after.index ==> k in before.index)
    && (forall k, tax :: tax in QueueAt(after.queue, k) ==> tax in QueueAt(before.queue, k))
  }

  lemma DeductionShrinks(st: State, tx: ParsedTx)
    ensures Shrinks(st, DeductOne(st, tx).0)
  {
    var after := DeductOne(st, tx).0;
    forall k, tax | tax in QueueAt(after.queue, k) ensures tax in QueueAt(st.queue, k) {
      QueueOnlyShrinks(st, tx, k);
      assert tax in multiset(QueueAt(after.queue, k));
      assert tax in multiset(QueueAt(st.queue, k));
    }
  }

  lemma {:induction false} DeductionsShrink(st: State, transfers: seq<ParsedTx>)
    ensures Shrinks(st, DeductAll(st, transfers).0)
    decreases |transfers|
  {
    if transfers != [] {
      DeductionShrinks(st, transfers[0]);
      DeductionsShrink(DeductOne(st, transfers[0]).0, transfers[1..]);
    }
  }

  lemma {:induction false} DeductAllFrom(st: State, transfers: seq<ParsedTx>, n: nat)
    requires n <= |transfers|
    ensures DeductAll(st, transfers).0 == DeductAll(DeductAll(st, transfers[..n]).0, transfers[n..]).0
    decreases n
  {
    if n == 0 {
      assert transfers[0..] == transfers && transfers[..0] == [];
    } else {
      assert transfers[..n][1..] == transfers[1..][..n - 1] && transfers[1..][n - 1..] == transfers[n..];
      DeductAllFrom(DeductOne(st, transfers[0]).0, transfers[1..], n - 1);
    }
  }

  /** No transfer is passed over: when one takes no tax, then also at the end no tax that is left
      in its queue makes up the amount of a slot that is left. */
  lemma {:induction false} DeductionsAreMaximal(st: State, transfers: seq<ParsedTx>, n: nat)
    requires Indexed(st.pairs, st.index) && n < |transfers|
    ensures var tx := transfers[n];
            var left := DeductAll(st, transfers).0;
            var j := if tx.asset0.amount != "" then 0 else 1;
            DeductAll(st, transfers[..n + 1]).1 == DeductAll(st, transfers[..n]).1 ==>
              forall tax :: tax in QueueAt(left.queue, QueueKey(Slot(tx, j).addr, tx.msgIndex)) ==>
                !Gross(left.index, tx, j, tax)
  {
    var was := DeductAll(st, transfers[..n]);
    assert transfers[..n + 1] == transfers[..n] + [transfers[n]];
    DeductAllMore(st, transfers[..n], transfers[n]);
    DeductionsKeepIndex(st, transfers[..n]);
    DeductAllFrom(st, transfers, n);
    DeductionsShrink(was.0, transfers[n..]);
    NoneLater(was.0, DeductAll(st, transfers).0, transfers[n]);
    AppendedSame(was.1, DeductOne(was.0, transfers[n]).1);
  }

  lemma AppendedSame(log: seq<Deduction>, d: Option<Deduction>)
    ensures log + (if d.Some? then [d.value] else []) == log ==> d.None?
  {
    assert d.Some? ==> |log + [d.value]| > |log|;
  }

  lemma {:induction false} NoneLater(st: State, left: State, tx: ParsedTx)
    requires Indexed(st.pairs, st.index) && Shrinks(st, left)
    ensures var j := if tx.asset0.amount != "" then 0 else 1;
            DeductOne(st, tx).1.None? ==>
              forall tax :: tax in QueueAt(left.queue, QueueKey(Slot(tx, j).addr, tx.msgIndex)) ==>
                !Gross(left.index, tx, j, tax)
  {
    DeductionIff(st, tx);
    var j := if tx.asset0.amount != "" then 0 else 1;
    var key := QueueKey(Slot(tx, j).addr, tx.msgIndex);
    if DeductOne(st, tx).1.None? {
      forall tax | tax in QueueAt(left.queue, key) ensures !Gross(left.index, tx, j, tax) {
        assert tax in QueueAt(st.queue, key);
        var m :| 0 <= m < |QueueAt(st.queue, key)| && QueueAt(st.queue, key)[m] == tax;
      }
    }
  }

  lemma {:induction false} DeductionsKeepIndex(st: State, transfers: seq<ParsedTx>)
    requires Indexed(st.pairs, st.index)
    ensures Indexed(DeductAll(st, transfers).0.pairs, DeductAll(st, transfers).0.index)
    decreases |transfers|
  {
    if transfers != [] {
      DeductKeepsIndex(st, transfers[0]);
      DeductionsKeepIndex(DeductOne(st, transfers[0]).0, transfers[1..]);
    }
  }

  /** A payment joins the end of the queue of its asset and message, and of no other. */
  lemma {:induction false} PaymentJoinsQueue(taxTxs: seq<ParsedTx>, t: ParsedTx, addr: string, msgIndex: int)
    ensures TaxesFor([], QueueKey(addr, msgIndex)) == []
    ensures TaxesFor(taxTxs + [t], QueueKey(addr, msgIndex)) == TaxesFor(taxTxs, QueueKey(addr, msgIndex)) +
              if t.asset0.addr == addr && t.msgIndex == msgIndex then [ParseInt64(t.asset0.amount)] else []
  {
    assert (taxTxs + [t])[..|taxTxs|] == taxTxs;
  }

  /** The transfers from which tax can be deducted are those of the pairs, in order. */
  lemma {:induction false} PairTransferIsTried(pairTxs: seq<ParsedTx>, transfers: seq<ParsedTx>, t: ParsedTx)
    ensures TransfersOf(Contracts(pairTxs), []) == []
    ensures TransfersOf(Contracts(pairTxs), transfers + [t]) == TransfersOf(Contracts(pairTxs), transfers) +
              if exists i :: 0 <= i < |pairTxs| && pairTxs[i].contract == t.contract then [t] else []
  {
    assert (transfers + [t])[..|transfers|] == transfers;
    if t.contract in Contracts(pairTxs) {
      var tx :| tx in pairTxs && tx.contract == t.contract;
      var i :| 0 <= i < |pairTxs| && pairTxs[i] == tx;
    }
  }

  // ---- the three together ----

  /** Every matched transfer carries one asset, in the amount of its entry. */
  ghost predicate Exact(pairTxs: seq<ParsedTx>, transfers: seq<ParsedTx>) {
    ExactMatches(Consume(PopList(pairTxs), transfers).matched)
  }

  function Contracts(pairTxs: seq<ParsedTx>): set<string> {
    set tx | tx in pairTxs :: tx.contract
  }

  function SentBy(sender: string, txs: seq<ParsedTx>): (r: seq<ParsedTx>)
    ensures |r| == |txs| && forall i :: 0 <= i < |txs| ==> r[i] == txs[i].(sender := sender)
  {
    seq(|txs|, i requires 0 <= i < |txs| => txs[i].(sender := sender))
  }

  method PairAddrs(pairTxs: array<ParsedTx>) returns (addrs: set<string>)
    ensures addrs == Contracts(pairTxs[..])
  {
    addrs := {};
    for i := 0 to pairTxs.Length
      invariant addrs == Contracts(pairTxs[..i])
    {
      assert pairTxs[..i + 1] == pairTxs[..i] + [pairTxs[i]];
      addrs := addrs + {pairTxs[i].contract};
    }
    assert pairTxs[..pairTxs.Length] == pairTxs[..];
  }

  function TransfersOf(pairs: set<string>, txs: seq<ParsedTx>): seq<ParsedTx> {
    if txs == [] then [] else
      TransfersOf(pairs, txs[..|txs| - 1]) + if txs[|txs| - 1].contract in pairs then [txs[|txs| - 1]] else []
  }

  method PairTransfers(pairs: set<string>, transferTxs: seq<ParsedTx>) returns (txs: seq<ParsedTx>)
    ensures txs == TransfersOf(pairs, transferTxs)
  {
    txs := [];
    for i := 0 to |transferTxs|
      invariant txs == TransfersOf(pairs, transferTxs[..i])
    {
      assert transferTxs[..i + 1][..i] == transferTxs[..i];
      if transferTxs[i].contract in pairs {
        txs := txs + [transferTxs[i]];
      }
    }
    assert transferTxs[..|transferTxs|] == transferTxs;
  }

  method SetSender(sender: string, pairTxs: array<ParsedTx>)
    modifies pairTxs
    ensures pairTxs[..] == SentBy(sender, old(pairTxs[..]))
  {
    ghost var was := pairTxs[..];
    for i := 0 to pairTxs.Length
      invariant forall m :: 0 <= m < pairTxs.Length ==>
          pairTxs[m] == if m < i then was[m].(sender := sender) else was[m]
    {
      pairTxs[i] := pairTxs[i].(sender := sender);
    }
  }

  /** The part of ParseTxs that combines the parsed transactions: tax transfers are split
      off, tax is deducted, and then duplicates are removed.  When matches are exact, the
      output moves every balance as the transfers did, up to the entries left over. */
  method AssembleTxs(txSender: string, pairTxs: array<ParsedTx>, taxTxs: seq<ParsedTx>, wasmTxs: seq<ParsedTx>,
                     transferTxs: seq<ParsedTx>)
    returns (txDtos: seq<ParsedTx>, ghost remaining: seq<ParsedTx>, ghost start: State)
    modifies pairTxs
    ensures start.pairs == old(pairTxs[..])
    ensures taxTxs != [] ==> Indexed(start.pairs, start.index) && IndexComplete(start.index, start.pairs)
    ensures taxTxs != [] ==> forall k :: QueueAt(start.queue, k) == TaxesFor(taxTxs, k)
    ensures remaining == Split(TaxKeys(taxTxs), transferTxs, Contracts(start.pairs)).1
    ensures pairTxs[..] ==
            SentBy(txSender, if taxTxs == [] then start.pairs
                             else DeductAll(start, TransfersOf(Contracts(start.pairs), remaining)).0.pairs)
    ensures txDtos == pairTxs[..] + Split(TaxKeys(taxTxs), transferTxs, Contracts(start.pairs)).0 +
                      Consume(PopList(pairTxs[..]), wasmTxs + remaining).survivors
    ensures Exact(pairTxs[..], wasmTxs + remaining) ==>
              forall pair, asset :: Net(txDtos, pair, asset) ==
                Net(wasmTxs, pair, asset) + Net(transferTxs, pair, asset) +
                NetEntries(Consume(PopList(pairTxs[..]), wasmTxs + remaining).leftover, pair, asset)
  {
    var pairs := PairAddrs(pairTxs);
    var taxTransfers, rest := ExtractTaxTransfers(transferTxs, taxTxs, pairs);
    remaining := rest;
    start := State(pairTxs[..], map[], map[]);
    if |taxTxs| > 0 {
      var pairTransfers := PairTransfers(pairs, rest);
      ghost var deductions;
      start, deductions := DeductTaxFromPairTxs(taxTxs, pairTransfers, pairTxs);
    }
    SetSender(txSender, pairTxs);
    var surviving := RemoveDuplicatedTxs(pairTxs[..], wasmTxs + rest);
    txDtos := pairTxs[..] + taxTransfers + surviving;
    AssembledBalance(pairTxs[..], taxTransfers, rest, transferTxs, wasmTxs, TaxKeys(taxTxs), pairs);
  }

  lemma {:induction false} AssembledBalance(pairTxs: seq<ParsedTx>, taxTransfers: seq<ParsedTx>, rest: seq<ParsedTx>,
                                            transferTxs: seq<ParsedTx>,
                         wasmTxs: seq<ParsedTx>, counts: multiset<TaxKey>, pairs: set<string>)
    requires (taxTransfers, rest) == Split(counts, transferTxs, pairs)
    ensures var o := Consume(PopList(pairTxs), wasmTxs + rest);
            Exact(pairTxs, wasmTxs + rest) ==> forall pair, asset ::
              Net(pairTxs + taxTransfers + o.survivors, pair, asset) ==
              Net(wasmTxs, pair, asset) + Net(transferTxs, pair, asset) + NetEntries(o.leftover, pair, asset)
  {
    var o := Consume(PopList(pairTxs), wasmTxs + rest);
    if Exact(pairTxs, wasmTxs + rest) {
      forall pair, asset ensures Net(pairTxs + taxTransfers + o.survivors, pair, asset) ==
        Net(wasmTxs, pair, asset) + Net(transferTxs, pair, asset) + NetEntries(o.leftover, pair, asset)
      {
        DeduplicationConservesBalances(pairTxs, wasmTxs + rest, pair, asset);
        SplitIsExact(counts, transferTxs, pairs);
        MergeNet(taxTransfers, rest, transferTxs, pair, asset);
        NetConcat(pairTxs + taxTransfers, o.survivors, pair, asset);
        NetConcat(pairTxs, taxTransfers, pair, asset);
        NetConcat(wasmTxs, rest, pair, asset);
      }
    }
  }
}
