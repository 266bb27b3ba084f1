/** Removal of the transfers that pair actions already account for
    (RemoveDuplicatedTxs and matchesPairTransferEntry of parser/dex/dex.go). */
module Dedup {
  import opened Amounts

  datatype PopEntry = PopEntry(pairAddr: string, assetAddr: string, amount: string)

  predicate IsCw20TokenAddress(addr: string) {
    !("ibc/" <= addr) && |addr| > 20
  }

  /** Pair-to-user transfers of a CW20 token may differ in amount. */
  predicate AnyAmount(e: PopEntry, tx: ParsedTx) {
    e.pairAddr == tx.sender && IsCw20TokenAddress(e.assetAddr)
  }

  predicate SlotMatches(e: PopEntry, tx: ParsedTx, a: Asset) {
    a.addr == e.assetAddr && a.amount != "" && (AnyAmount(e, tx) || a.amount == e.amount)
  }

  predicate MatchesPairTransferEntry(e: PopEntry, tx: ParsedTx) {
    (if IsOutflow(e.amount) then e.pairAddr == tx.sender else e.pairAddr == tx.contract) &&
    (SlotMatches(e, tx, tx.asset0) || SlotMatches(e, tx, tx.asset1))
  }

  // ---- specification ----

  predicate Counts(a: Asset) {
    a.amount != "" && a.amount != "0"
  }

  function EntriesOf(tx: ParsedTx): seq<PopEntry> {
    (if Counts(tx.asset0) then [PopEntry(tx.contract, tx.asset0.addr, tx.asset0.amount)] else []) +
    (if Counts(tx.asset1) then [PopEntry(tx.contract, tx.asset1.addr, tx.asset1.amount)] else [])
  }

  function PopList(pairTxs: seq<ParsedTx>): seq<PopEntry> {
    if pairTxs == [] then [] else PopList(pairTxs[..|pairTxs| - 1]) + EntriesOf(pairTxs[|pairTxs| - 1])
  }

  function Without<T>(s: seq<T>, j: nat): seq<T>
    requires j < |s|
  {
    s[..j] + s[j + 1..]
  }

  /** The first entry the transfer matches, or the length of the list. */
  function FirstMatch(pop: seq<PopEntry>, tx: ParsedTx): (j: nat)
    ensures j <= |pop|
    ensures j < |pop| ==> MatchesPairTransferEntry(pop[j], tx)
    ensures forall m :: 0 <= m < j ==> !MatchesPairTransferEntry(pop[m], tx)
  {
    if pop == [] || MatchesPairTransferEntry(pop[0], tx) then 0 else 1 + FirstMatch(pop[1..], tx)
  }

  /** Surviving transfers, entries left over, and who consumed whom. */
  datatype Outcome = Outcome(survivors: seq<ParsedTx>, leftover: seq<PopEntry>, matched: seq<(PopEntry, ParsedTx)>)

  function Consume(pop: seq<PopEntry>, transfers: seq<ParsedTx>): Outcome {
    if transfers == [] then Outcome([], pop, []) else
      var tx, j := transfers[0], FirstMatch(pop, transfers[0]);
      if j < |pop| then
        var rest := Consume(Without(pop, j), transfers[1..]);
        rest.(matched := [(pop[j], tx)] + rest.matched)
      else
        var rest := Consume(pop, transfers[1..]);
        rest.(survivors := [tx] + rest.survivors)
  }

  // ---- the code ----

  method BuildPopList(pairTxs: seq<ParsedTx>) returns (popList: seq<PopEntry>)
    ensures popList == PopList(pairTxs)
  {
    popList := [];
    for i := 0 to |pairTxs|
      invariant popList == PopList(pairTxs[..i])
    {
      assert pairTxs[..i + 1][..i] == pairTxs[..i];
      var ptx := pairTxs[i];
      if ptx.asset0.amount != "" && ptx.asset0.amount != "0" {
        popList := popList + [PopEntry(ptx.contract, ptx.asset0.addr, ptx.asset0.amount)];
      }
      if ptx.asset1.amount != "" && ptx.asset1.amount != "0" {
        popList := popList + [PopEntry(ptx.contract, ptx.asset1.addr, ptx.asset1.amount)];
      }
    }
    assert pairTxs[..|pairTxs|] == pairTxs;
  }

  method FindEntry(popList: seq<PopEntry>, tx: ParsedTx) returns (j: nat)
    ensures j == FirstMatch(popList, tx)
  {
    j := 0;
    assert popList[0..] == popList;
    while j < |popList|
      invariant 0 <= j <= |popList|
      invariant FirstMatch(popList, tx) == j + FirstMatch(popList[j..], tx)
    {
      if MatchesPairTransferEntry(popList[j], tx) {
        return;
      }
      assert popList[j..][1..] == popList[j + 1..];
      j := j + 1;
    }
  }

  /** The list of entries shrinks while the transfers are marked consumed in place. */
  method MarkConsumed(entries: seq<PopEntry>, transferTxs: seq<ParsedTx>, consumed: array<bool>)
    requires consumed.Length == |transferTxs|
    modifies consumed
    ensures Kept(transferTxs, consumed[..], |transferTxs|) == Consume(entries, transferTxs).survivors
  {
    var popList := entries;
    assert transferTxs[0..] == transferTxs;
    ghost var goal := Consume(entries, transferTxs).survivors;
    for i := 0 to |transferTxs|
      invariant MarkedSoFar(goal, popList, transferTxs, consumed[..], i)
    {
      ghost var was := consumed[..];
      var j := FindEntry(popList, transferTxs[i]);
      MarkStep(goal, popList, transferTxs, was, i);
      consumed[i] := j < |popList|;
      assert consumed[..] == was[i := j < |popList|];
      if j < |popList| {
        popList := Without(popList, j);
      }
    }
  }

  /** The transfers kept so far, and what the entries left do to the others. */
  ghost predicate MarkedSoFar(goal: seq<ParsedTx>, pop: seq<PopEntry>, transfers: seq<ParsedTx>, consumed: seq<bool>,
                              i: nat)
    requires i <= |transfers| == |consumed|
  {
    goal == Kept(transfers, consumed, i) + Consume(pop, transfers[i..]).survivors
  }

  lemma {:induction false} MarkStep(goal: seq<ParsedTx>, pop: seq<PopEntry>, transfers: seq<ParsedTx>,
                                    consumed: seq<bool>, i: nat)
    requires i < |transfers| == |consumed| && MarkedSoFar(goal, pop, transfers, consumed, i)
    ensures var j := FirstMatch(pop, transfers[i]);
            if j < |pop| then MarkedSoFar(goal, Without(pop, j), transfers, consumed[i := true], i + 1)
            else MarkedSoFar(goal, pop, transfers, consumed[i := false], i + 1)
  {
    ConsumeStep(pop, transfers, i);
    var j := FirstMatch(pop, transfers[i]);
    var marked := if j < |pop| then consumed[i := true] else consumed[i := false];
    KeptSame(transfers, consumed, marked, i);
    if j < |pop| {
      assert Kept(transfers, marked, i) + [] == Kept(transfers, marked, i);
    } else {
      Regroup3(Kept(transfers, marked, i), [transfers[i]], Consume(pop, transfers[i + 1..]).survivors);
    }
  }

  lemma Regroup3<T>(a: seq<T>, b: seq<T>, c: seq<T>)
    ensures a + (b + c) == a + b + c
  {
  }

  lemma {:induction false} ConsumeStep(pop: seq<PopEntry>, transfers: seq<ParsedTx>, i: nat)
    requires i < |transfers|
    ensures var j := FirstMatch(pop, transfers[i]);
            Consume(pop, transfers[i..]).survivors ==
            if j < |pop| then Consume(Without(pop, j), transfers[i + 1..]).survivors
            else [transfers[i]] + Consume(pop, transfers[i + 1..]).survivors
  {
    assert transfers[i..][1..] == transfers[i + 1..];
  }

  method RemoveDuplicatedTxs(pairTxs: seq<ParsedTx>, transferTxs: seq<ParsedTx>) returns (txs: seq<ParsedTx>)
    ensures txs == Consume(PopList(pairTxs), transferTxs).survivors
  {
    var popList := BuildPopList(pairTxs);
    var consumed := new bool[|transferTxs|];
    MarkConsumed(popList, transferTxs, consumed);
    txs := CollectKept(transferTxs, consumed);
  }

  method CollectKept(transferTxs: seq<ParsedTx>, consumed: array<bool>) returns (txs: seq<ParsedTx>)
    requires consumed.Length == |transferTxs|
    ensures txs == Kept(transferTxs, consumed[..], |transferTxs|)
  {
    txs := [];
    for i := 0 to |transferTxs|
      invariant txs == Kept(transferTxs, consumed[..], i)
    {
      if !consumed[i] {
        txs := txs + [transferTxs[i]];
      }
    }
  }

  /** Of the first `n` transfers, those not consumed. */
  function Kept(transfers: seq<ParsedTx>, consumed: seq<bool>, n: nat): seq<ParsedTx>
    requires n <= |transfers| == |consumed|
  {
    if n == 0 then [] else Kept(transfers, consumed, n - 1) + if consumed[n - 1] then [] else [transfers[n - 1]]
  }

  lemma {:induction false} KeptSame(transfers: seq<ParsedTx>, a: seq<bool>, b: seq<bool>, n: nat)
    requires n <= |transfers| == |a| == |b| && a[..n] == b[..n]
    ensures Kept(transfers, a, n) == Kept(transfers, b, n)
  {
    if n > 0 {
      assert a[..n - 1] == a[..n][..n - 1] && b[..n - 1] == b[..n][..n - 1];
      assert a[..n][n - 1] == b[..n][n - 1];
      KeptSame(transfers, a, b, n - 1);
    }
  }

  // ---- the matching is injective and maximal ----

  function EntrySide(m: seq<(PopEntry, ParsedTx)>): (r: seq<PopEntry>)
    ensures |r| == |m| && forall i :: 0 <= i < |m| ==> r[i] == m[i].0
  {
    seq(|m|, i requires 0 <= i < |m| => m[i].0)
  }

  function TransferSide(m: seq<(PopEntry, ParsedTx)>): (r: seq<ParsedTx>)
    ensures |r| == |m| && forall i :: 0 <= i < |m| ==> r[i] == m[i].1
  {
    seq(|m|, i requires 0 <= i < |m| => m[i].1)
  }

  lemma WithoutMultiset<T>(s: seq<T>, j: nat)
    requires j < |s|
    ensures multiset(s) == multiset{s[j]} + multiset(Without(s, j))
  {
    assert s == s[..j] + [s[j]] + s[j + 1..];
  }

  lemma EntrySideCons(e: PopEntry, tx: ParsedTx, m: seq<(PopEntry, ParsedTx)>)
    ensures multiset(EntrySide([(e, tx)] + m)) == multiset{e} + multiset(EntrySide(m))
  {
    assert EntrySide([(e, tx)] + m) == [e] + EntrySide(m);
  }

  lemma {:induction false} EntriesSplit(pop: seq<PopEntry>, transfers: seq<ParsedTx>)
    ensures var o := Consume(pop, transfers);
            multiset(pop) == multiset(EntrySide(o.matched)) + multiset(o.leftover)
    decreases |transfers|
  {
    if transfers == [] {
      assert EntrySide([]) == [];
    } else {
      var tx, j := transfers[0], FirstMatch(pop, transfers[0]);
      if j < |pop| {
        var rest := Consume(Without(pop, j), transfers[1..]);
        EntriesSplit(Without(pop, j), transfers[1..]);
        WithoutMultiset(pop, j);
        EntrySideCons(pop[j], tx, rest.matched);
      } else {
        EntriesSplit(pop, transfers[1..]);
      }
    }
  }

  lemma TransferSideCons(e: PopEntry, tx: ParsedTx, m: seq<(PopEntry, ParsedTx)>)
    ensures multiset(TransferSide([(e, tx)] + m)) == multiset{tx} + multiset(TransferSide(m))
  {
    assert TransferSide([(e, tx)] + m) == [tx] + TransferSide(m);
  }

  lemma {:induction false} TransfersSplit(pop: seq<PopEntry>, transfers: seq<ParsedTx>)
    ensures var o := Consume(pop, transfers);
            multiset(transfers) == multiset(TransferSide(o.matched)) + multiset(o.survivors)
    decreases |transfers|
  {
    if transfers == [] {
      assert TransferSide([]) == [];
    } else {
      var tx, j := transfers[0], FirstMatch(pop, transfers[0]);
      assert transfers == [tx] + transfers[1..];
      if j < |pop| {
        var rest := Consume(Without(pop, j), transfers[1..]);
        TransfersSplit(Without(pop, j), transfers[1..]);
        TransferSideCons(pop[j], tx, rest.matched);
      } else {
        TransfersSplit(pop, transfers[1..]);
      }
    }
  }

  ghost predicate AllMatch(m: seq<(PopEntry, ParsedTx)>) {
    forall p :: p in m ==> MatchesPairTransferEntry(p.0, p.1)
  }

  lemma {:induction false} MatchesMatch(pop: seq<PopEntry>, transfers: seq<ParsedTx>)
    ensures AllMatch(Consume(pop, transfers).matched)
    decreases |transfers|
  {
    if transfers != [] {
      var j := FirstMatch(pop, transfers[0]);
      if j < |pop| { MatchesMatch(Without(pop, j), transfers[1..]); } else { MatchesMatch(pop, transfers[1..]); }
    }
  }

  /** Each entry and each transfer is used at most once: both lists split into what was
      matched, one to one, and what is left. */
  lemma {:induction false} MatchingIsOneToOne(pop: seq<PopEntry>, transfers: seq<ParsedTx>)
    ensures var o := Consume(pop, transfers);
            && multiset(pop) == multiset(EntrySide(o.matched)) + multiset(o.leftover)
            && multiset(transfers) == multiset(TransferSide(o.matched)) + multiset(o.survivors)
            && AllMatch(o.matched)
  {
    EntriesSplit(pop, transfers);
    TransfersSplit(pop, transfers);
    MatchesMatch(pop, transfers);
  }

  lemma {:induction false} LeftoverShrinks(pop: seq<PopEntry>, transfers: seq<ParsedTx>)
    ensures forall e :: e in Consume(pop, transfers).leftover ==> e in pop
    decreases |transfers|
  {
    if transfers != [] {
      var j := FirstMatch(pop, transfers[0]);
      if j < |pop| { LeftoverShrinks(Without(pop, j), transfers[1..]); } else { LeftoverShrinks(pop, transfers[1..]); }
    }
  }

  /** No entry that is left over matches a transfer that survived. */
  lemma {:induction false} MatchingIsMaximal(pop: seq<PopEntry>, transfers: seq<ParsedTx>)
    ensures var o := Consume(pop, transfers);
            forall e, tx :: e in o.leftover && tx in o.survivors ==> !MatchesPairTransferEntry(e, tx)
    decreases |transfers|
  {
    if transfers != [] {
      var j := FirstMatch(pop, transfers[0]);
      if j < |pop| {
        MatchingIsMaximal(Without(pop, j), transfers[1..]);
      } else {
        MatchingIsMaximal(pop, transfers[1..]);
        LeftoverShrinks(pop, transfers[1..]);
        forall e | e in Consume(pop, transfers[1..]).leftover ensures !MatchesPairTransferEntry(e, transfers[0]) {
          var m :| 0 <= m < |pop| && pop[m] == e;
        }
      }
    }
  }

  // ---- balances ----

  function EntryPart(e: PopEntry, pair: string, asset: string): int {
    if e.pairAddr == pair && e.assetAddr == asset then Value(e.amount) else 0
  }

  function NetEntries(pop: seq<PopEntry>, pair: string, asset: string): int {
    if pop == [] then 0 else EntryPart(pop[0], pair, asset) + NetEntries(pop[1..], pair, asset)
  }

  lemma {:induction false} NetEntriesConcat(a: seq<PopEntry>, b: seq<PopEntry>, pair: string, asset: string)
    ensures NetEntries(a + b, pair, asset) == NetEntries(a, pair, asset) + NetEntries(b, pair, asset)
  {
    if a == [] {
      assert a + b == b;
    } else {
      assert (a + b)[1..] == a[1..] + b;
      NetEntriesConcat(a[1..], b, pair, asset);
    }
  }

  lemma {:induction false} NetWithout(pop: seq<PopEntry>, j: nat, pair: string, asset: string)
    requires j < |pop|
    ensures NetEntries(pop, pair, asset) == EntryPart(pop[j], pair, asset) + NetEntries(Without(pop, j), pair, asset)
  {
    assert pop == pop[..j] + ([pop[j]] + pop[j + 1..]);
    NetEntriesConcat(pop[..j], [pop[j]] + pop[j + 1..], pair, asset);
    NetEntriesConcat([pop[j]], pop[j + 1..], pair, asset);
    NetEntriesConcat(pop[..j], pop[j + 1..], pair, asset);
  }

  lemma {:induction false} EntriesOfNet(tx: ParsedTx, pair: string, asset: string)
    ensures NetEntries(EntriesOf(tx), pair, asset) == Contribution(tx, pair, asset)
  {
    ZeroAmounts();
    var e0, e1 := PopEntry(tx.contract, tx.asset0.addr, tx.asset0.amount),
        PopEntry(tx.contract, tx.asset1.addr, tx.asset1.amount);
    var a: seq<PopEntry> := if Counts(tx.asset0) then [e0] else [];
    var b: seq<PopEntry> := if Counts(tx.asset1) then [e1] else [];
    NetEntriesConcat(a, b, pair, asset);
  }

  /** The entries carry the balance changes of the pair transactions. */
  lemma {:induction false} PopListNet(pairTxs: seq<ParsedTx>, pair: string, asset: string)
    ensures NetEntries(PopList(pairTxs), pair, asset) == Net(pairTxs, pair, asset)
  {
    if pairTxs != [] {
      var n := |pairTxs| - 1;
      PopListNet(pairTxs[..n], pair, asset);
      EntriesOfNet(pairTxs[n], pair, asset);
      NetEntriesConcat(PopList(pairTxs[..n]), EntriesOf(pairTxs[n]), pair, asset);
      assert pairTxs == pairTxs[..n] + [pairTxs[n]];
      NetConcat(pairTxs[..n], [pairTxs[n]], pair, asset);
    }
  }

  /** By how much the matches miss each other. */
  function Mismatch(m: seq<(PopEntry, ParsedTx)>, pair: string, asset: string): int {
    if m == [] then 0 else
      EntryPart(m[0].0, pair, asset) - Contribution(m[0].1, pair, asset) + Mismatch(m[1..], pair, asset)
  }

  lemma {:induction false} ConsumeBalance(pop: seq<PopEntry>, transfers: seq<ParsedTx>, pair: string, asset: string)
    ensures var o := Consume(pop, transfers);
            NetEntries(pop, pair, asset) + Net(o.survivors, pair, asset) ==
            Net(transfers, pair, asset) + NetEntries(o.leftover, pair, asset) + Mismatch(o.matched, pair, asset)
    decreases |transfers|
  {
    if transfers != [] {
      var tx, j := transfers[0], FirstMatch(pop, transfers[0]);
      if j < |pop| {
        var rest := Consume(Without(pop, j), transfers[1..]);
        ConsumeBalance(Without(pop, j), transfers[1..], pair, asset);
        NetWithout(pop, j, pair, asset);
        assert ([(pop[j], tx)] + rest.matched)[1..] == rest.matched;
      } else {
        var rest := Consume(pop, transfers[1..]);
        ConsumeBalance(pop, transfers[1..], pair, asset);
        assert ([tx] + rest.survivors)[1..] == rest.survivors;
      }
    }
  }

  /** A transfer as the mapper builds it for one asset of a pair: one slot filled, and an
      outflow is recorded on the sending pair. */
  predicate SingleAsset(tx: ParsedTx) {
    && (tx.asset0.amount == "" || tx.asset1.amount == "")
    && (IsOutflow(tx.asset0.amount) || IsOutflow(tx.asset1.amount) ==> tx.contract == tx.sender)
  }

  /** The asset that matches has the entry's amount. */
  predicate Agrees(e: PopEntry, tx: ParsedTx) {
    && (SlotMatches(e, tx, tx.asset0) ==> tx.asset0.amount == e.amount)
    && (SlotMatches(e, tx, tx.asset1) ==> tx.asset1.amount == e.amount)
  }

  /** Only a transfer out of a pair of a CW20 asset can match without agreeing. */
  lemma DisagreesOnlyAnyAmount(e: PopEntry, tx: ParsedTx)
    requires !AnyAmount(e, tx)
    ensures Agrees(e, tx)
  {
  }

  lemma ExactMatchBalances(e: PopEntry, tx: ParsedTx, pair: string, asset: string)
    requires MatchesPairTransferEntry(e, tx) && SingleAsset(tx) && Agrees(e, tx)
    ensures EntryPart(e, pair, asset) == Contribution(tx, pair, asset)
  {
    ZeroAmounts();
  }

  /** Every matched transfer carries one asset, in the amount of its entry. */
  ghost predicate ExactMatches(m: seq<(PopEntry, ParsedTx)>) {
    forall i :: 0 <= i < |m| ==> SingleAsset(m[i].1) && Agrees(m[i].0, m[i].1)
  }

  lemma {:induction false} ExactMatchingBalances(m: seq<(PopEntry, ParsedTx)>, pair: string, asset: string)
    requires AllMatch(m) && ExactMatches(m)
    ensures Mismatch(m, pair, asset) == 0
  {
    if m != [] {
      assert forall i :: 0 <= i < |m| - 1 ==> m[1..][i] == m[i + 1];
      ExactMatchingBalances(m[1..], pair, asset);
      ExactMatchBalances(m[0].0, m[0].1, pair, asset);
    }
  }

  /** Deduplication and balances.  In general the recorded balance differs from the
      transferred one by the unmatched entries and by the mismatch of the matches; when the
      matched amounts agree, there is no mismatch. */
  lemma {:induction false} DeduplicationConservesBalances(pairTxs: seq<ParsedTx>, transfers: seq<ParsedTx>,
                                                          pair: string, asset: string)
    ensures var o := Consume(PopList(pairTxs), transfers);
            Net(pairTxs, pair, asset) + Net(o.survivors, pair, asset) ==
            Net(transfers, pair, asset) + NetEntries(o.leftover, pair, asset) + Mismatch(o.matched, pair, asset)
    ensures var o := Consume(PopList(pairTxs), transfers);
            ExactMatches(o.matched) ==>
              Net(pairTxs, pair, asset) + Net(o.survivors, pair, asset) ==
              Net(transfers, pair, asset) + NetEntries(o.leftover, pair, asset)
  {
    PopListNet(pairTxs, pair, asset);
    ConsumeBalance(PopList(pairTxs), transfers, pair, asset);
    MatchesMatch(PopList(pairTxs), transfers);
    var o := Consume(PopList(pairTxs), transfers);
    if ExactMatches(o.matched) {
      ExactMatchingBalances(o.matched, pair, asset);
    }
  }

  // ---- which transfers are duplicates ----

  /** A slot of a pair transaction with an amount that is not zero. */
  ghost predicate IsSlot(pairTxs: seq<ParsedTx>, i: nat, j: nat) {
    i < |pairTxs| && j < 2 && Slot(pairTxs[i], j).amount != "" && Slot(pairTxs[i], j).amount != "0"
  }

  /** The transfer moves one asset, and is the one that a slot tells: its address and direction,
      with the pair as sender of a negative amount, and its amount, which may differ for a CW20
      asset that the pair sends. */
  ghost predicate Carries(tx: ParsedTx, pair: string, a: Asset) {
    && (CarriedBy(tx.asset0, tx.asset1, a) || CarriedBy(tx.asset1, tx.asset0, a))
    && (if IsOutflow(a.amount) then tx.sender == pair else tx.contract == pair)
  }

  predicate CarriedBy(moved: Asset, other: Asset, a: Asset) {
    && other.amount == "" && moved.addr == a.addr && moved.amount != ""
    && (IsOutflow(moved.amount) <==> IsOutflow(a.amount))
    && (moved.amount == a.amount || (IsOutflow(a.amount) && !("ibc/" <= a.addr) && |a.addr| > 20))
  }

  /** A CW20 asset that the sender of a transfer also has in a slot, in a direction that fits the
      transfer: then both are outflows. */
  ghost predicate Apart(pairTxs: seq<ParsedTx>, tx: ParsedTx, own: Asset) {
    forall i: nat, j: nat :: IsSlot(pairTxs, i, j) ==> ApartFrom(pairTxs[i].contract, Slot(pairTxs[i], j), tx, own)
  }

  predicate ApartFrom(pair: string, a: Asset, tx: ParsedTx, own: Asset) {
    (pair == tx.sender && a.addr == own.addr && !("ibc/" <= own.addr) && |own.addr| > 20 &&
     (IsOutflow(a.amount) || pair == tx.contract)) ==> IsOutflow(own.amount) && IsOutflow(a.amount)
  }

  /** Entries that one transfer may take for each other. */
  function Class(e: PopEntry): PopEntry {
    if IsOutflow(e.amount) && IsCw20TokenAddress(e.assetAddr) then e.(amount := "-") else e
  }

  function Classes(es: seq<PopEntry>): (r: seq<PopEntry>)
    ensures |r| == |es| && forall i :: 0 <= i < |es| ==> r[i] == Class(es[i])
  {
    seq(|es|, i requires 0 <= i < |es| => Class(es[i]))
  }

  lemma MatchIsClass(e: PopEntry, own: PopEntry, tx: ParsedTx)
    requires Carries(tx, own.pairAddr, Asset(own.assetAddr, own.amount))
    requires ApartFrom(e.pairAddr, Asset(e.assetAddr, e.amount), tx, Asset(own.assetAddr, own.amount))
    ensures MatchesPairTransferEntry(e, tx) <==> Class(e) == Class(own)
  {
  }

  /** The transfer matches the entries of the class of its own one, and no others. */
  ghost predicate InClass(pop: seq<PopEntry>, tx: ParsedTx, own: PopEntry) {
    forall e :: e in pop ==> (MatchesPairTransferEntry(e, tx) <==> Class(e) == Class(own))
  }

  ghost predicate AllInClass(pop: seq<PopEntry>, ts: seq<ParsedTx>, own: seq<PopEntry>) {
    |own| == |ts| && forall k :: 0 <= k < |ts| ==> InClass(pop, ts[k], own[k])
  }

  lemma {:induction false} ClassesWithout(pop: seq<PopEntry>, j: nat)
    requires j < |pop|
    ensures multiset(Classes(Without(pop, j))) == multiset(Classes(pop)) - multiset{Class(pop[j])}
    ensures forall e :: e in Without(pop, j) ==> e in pop
  {
    WithoutMultiset(Classes(pop), j);
    assert Classes(Without(pop, j)) == Without(Classes(pop), j);
  }

  lemma {:induction false} ClassesHead(own: seq<PopEntry>)
    requires own != []
    ensures multiset(Classes(own)) == multiset(Classes(own[1..])) + multiset{Class(own[0])}
  {
    assert Classes(own) == [Class(own[0])] + Classes(own[1..]);
  }

  /** A transfer whose class has an entry takes one of that class. */
  lemma {:induction false} TakesOwnClass(pop: seq<PopEntry>, tx: ParsedTx, own: PopEntry)
    requires InClass(pop, tx, own) && Class(own) in multiset(Classes(pop))
    ensures FirstMatch(pop, tx) < |pop| && Class(pop[FirstMatch(pop, tx)]) == Class(own)
  {
    var m :| 0 <= m < |pop| && Classes(pop)[m] == Class(own);
    assert pop[m] in pop && MatchesPairTransferEntry(pop[m], tx);
    assert pop[FirstMatch(pop, tx)] in pop;
  }

  /** As many transfers of a class as it has entries are consumed. */
  lemma {:induction false} AllConsumed(pop: seq<PopEntry>, ts: seq<ParsedTx>, own: seq<PopEntry>)
    requires AllInClass(pop, ts, own) && multiset(Classes(own)) <= multiset(Classes(pop))
    ensures Consume(pop, ts).survivors == []
    decreases |ts|
  {
    if ts != [] {
      ClassesHead(own);
      assert InClass(pop, ts[0], own[0]);
      TakesOwnClass(pop, ts[0], own[0]);
      var j := FirstMatch(pop, ts[0]);
      ClassesWithout(pop, j);
      forall k | 0 <= k < |ts[1..]| ensures InClass(Without(pop, j), ts[1..][k], own[1..][k]) {
        assert InClass(pop, ts[k + 1], own[k + 1]);
      }
      AllConsumed(Without(pop, j), ts[1..], own[1..]);
    }
  }

  function EntryAt(pairTxs: seq<ParsedTx>, i: nat, j: nat): PopEntry
    requires i < |pairTxs|
  {
    PopEntry(pairTxs[i].contract, Slot(pairTxs[i], j).addr, Slot(pairTxs[i], j).amount)
  }

  /** Where the entry of a slot stands in the list. */
  function PlaceOf(pairTxs: seq<ParsedTx>, i: nat, j: nat): nat
    requires i < |pairTxs|
  {
    |PopList(pairTxs[..i])| + if j == 1 && Counts(pairTxs[i].asset0) then 1 else 0
  }

  lemma {:induction false} PopListGrows(pairTxs: seq<ParsedTx>, i: nat)
    requires i < |pairTxs|
    ensures PopList(pairTxs[..i + 1]) == PopList(pairTxs[..i]) + EntriesOf(pairTxs[i])
  {
    assert pairTxs[..i + 1][..i] == pairTxs[..i];
  }

  lemma {:induction false} PopListPrefix(pairTxs: seq<ParsedTx>, i: nat)
    requires i <= |pairTxs|
    ensures PopList(pairTxs[..i]) <= PopList(pairTxs)
    decreases |pairTxs| - i
  {
    if i < |pairTxs| {
      PopListGrows(pairTxs, i);
      PopListPrefix(pairTxs, i + 1);
    } else {
      assert pairTxs[..i] == pairTxs;
    }
  }

  lemma {:induction false} SlotStands(pairTxs: seq<ParsedTx>, i: nat, j: nat)
    requires IsSlot(pairTxs, i, j)
    ensures PlaceOf(pairTxs, i, j) < |PopList(pairTxs[..i + 1])| <= |PopList(pairTxs)|
    ensures PopList(pairTxs)[PlaceOf(pairTxs, i, j)] == EntryAt(pairTxs, i, j)
  {
    PopListGrows(pairTxs, i);
    PopListPrefix(pairTxs, i + 1);
    assert PopList(pairTxs[..i + 1])[PlaceOf(pairTxs, i, j)] == EntryAt(pairTxs, i, j);
  }

  /** Different slots stand at different places. */
  lemma {:induction false} PlacesDiffer(pairTxs: seq<ParsedTx>, i: nat, j: nat, k: nat, l: nat)
    requires IsSlot(pairTxs, i, j) && IsSlot(pairTxs, k, l) && i <= k && (i, j) != (k, l)
    ensures PlaceOf(pairTxs, i, j) != PlaceOf(pairTxs, k, l)
  {
    if i < k {
      SlotStands(pairTxs, i, j);
      assert pairTxs[..k][..i + 1] == pairTxs[..i + 1];
      PopListPrefix(pairTxs[..k], i + 1);
    }
  }

  /** Entries picked at different places are a part of the list. */
  lemma {:induction false} PickedIsPart(pop: seq<PopEntry>, places: seq<nat>, own: seq<PopEntry>)
    requires |own| == |places| && forall k :: 0 <= k < |places| ==> places[k] < |pop| && pop[places[k]] == own[k]
    requires forall k, l :: 0 <= k < l < |places| ==> places[k] != places[l]
    ensures multiset(own) <= multiset(pop)
    decreases |places|
  {
    if places != [] {
      var n := |places| - 1;
      var m := places[n];
      var fewer := seq(n, k requires 0 <= k < n => if places[k] > m then places[k] - 1 else places[k]);
      PickedIsPart(Without(pop, m), fewer, own[..n]);
      WithoutMultiset(pop, m);
      assert own == own[..n] + [own[n]];
    }
  }

  lemma PartWithout<T>(a: multiset<T>, b: multiset<T>, x: T)
    requires a + multiset{x} <= b
    ensures a <= b - multiset{x}
  {
    forall y ensures a[y] <= (b - multiset{x})[y] {
      assert (a + multiset{x})[y] <= b[y];
    }
  }

  lemma {:induction false} HeadOfPart(own: seq<PopEntry>, pop: seq<PopEntry>) returns (j: nat)
    requires own != [] && multiset(own) <= multiset(pop)
    ensures j < |pop| && pop[j] == own[0] && multiset(own[1..]) <= multiset(Without(pop, j))
  {
    assert own == [own[0]] + own[1..] && multiset(own) == multiset(own[1..]) + multiset{own[0]};
    assert own[0] in multiset(own) && own[0] in multiset(pop);
    j :| 0 <= j < |pop| && pop[j] == own[0];
    WithoutMultiset(pop, j);
    PartWithout(multiset(own[1..]), multiset(pop), own[0]);
  }

  lemma {:induction false} PartOfClasses(own: seq<PopEntry>, pop: seq<PopEntry>)
    requires multiset(own) <= multiset(pop)
    ensures multiset(Classes(own)) <= multiset(Classes(pop))
    decreases |own|
  {
    if own != [] {
      var j := HeadOfPart(own, pop);
      PartOfClasses(own[1..], Without(pop, j));
      ClassesWithout(pop, j);
      ClassesHead(own);
      assert Classes(pop)[j] == Class(own[0]);
    } else {
      assert Classes(own) == [];
    }
  }

  lemma {:induction false} EntriesAreSlots(pairTxs: seq<ParsedTx>, e: PopEntry) returns (i: nat, j: nat)
    requires e in PopList(pairTxs)
    ensures IsSlot(pairTxs, i, j) && EntryAt(pairTxs, i, j) == e
  {
    var n := |pairTxs| - 1;
    if e in PopList(pairTxs[..n]) {
      i, j := EntriesAreSlots(pairTxs[..n], e);
    } else {
      i := n;
      j := if Counts(pairTxs[n].asset0) && e == EntryAt(pairTxs, n, 0) then 0 else 1;
    }
  }

  /** Transfers that each carry a non-zero slot of their own, in whatever order, are all removed,
      when CW20 assets keep apart. */
  lemma {:induction false} CarriedSlotsRemoved(pairTxs: seq<ParsedTx>, transfers: seq<ParsedTx>, slots: seq<(nat, nat)>)
    requires |slots| == |transfers| && forall k, l :: 0 <= k < l < |slots| ==> slots[k] != slots[l]
    requires forall k :: 0 <= k < |slots| ==>
               && IsSlot(pairTxs, slots[k].0, slots[k].1)
               && Carries(transfers[k], pairTxs[slots[k].0].contract, Slot(pairTxs[slots[k].0], slots[k].1))
               && Apart(pairTxs, transfers[k], Slot(pairTxs[slots[k].0], slots[k].1))
    ensures Consume(PopList(pairTxs), transfers).survivors == []
  {
    var pop, n := PopList(pairTxs), |slots|;
    var own := seq(n, k requires 0 <= k < n => EntryAt(pairTxs, slots[k].0, slots[k].1));
    var places := seq(n, k requires 0 <= k < n => PlaceOf(pairTxs, slots[k].0, slots[k].1));
    forall k | 0 <= k < n ensures places[k] < |pop| && pop[places[k]] == own[k] {
      SlotStands(pairTxs, slots[k].0, slots[k].1);
    }
    forall k, l | 0 <= k < l < n ensures places[k] != places[l] {
      if slots[k].0 <= slots[l].0 {
        PlacesDiffer(pairTxs, slots[k].0, slots[k].1, slots[l].0, slots[l].1);
      } else {
        PlacesDiffer(pairTxs, slots[l].0, slots[l].1, slots[k].0, slots[k].1);
      }
    }
    PickedIsPart(pop, places, own);
    PartOfClasses(own, pop);
    forall k | 0 <= k < n ensures InClass(pop, transfers[k], own[k]) {
      forall e | e in pop ensures MatchesPairTransferEntry(e, transfers[k]) <==> Class(e) == Class(own[k]) {
        OwnClassOnly(pairTxs, transfers[k], slots[k].0, slots[k].1, e);
      }
    }
    AllConsumed(pop, transfers, own);
  }

  lemma {:induction false} OwnClassOnly(pairTxs: seq<ParsedTx>, tx: ParsedTx, i: nat, j: nat, e: PopEntry)
    requires IsSlot(pairTxs, i, j) && Carries(tx, pairTxs[i].contract, Slot(pairTxs[i], j))
    requires Apart(pairTxs, tx, Slot(pairTxs[i], j)) && e in PopList(pairTxs)
    ensures MatchesPairTransferEntry(e, tx) <==> Class(e) == Class(EntryAt(pairTxs, i, j))
  {
    var k, l := EntriesAreSlots(pairTxs, e);
    MatchIsClass(e, EntryAt(pairTxs, i, j), tx);
  }

  /** The slot could account for the transfer: its direction, one asset, and the amount, unless
      the pair sends a CW20 asset. */
  predicate Accounts(pair: string, a: Asset, tx: ParsedTx) {
    && (if IsOutflow(a.amount) then tx.sender == pair else tx.contract == pair)
    && (AccountsSlot(pair, a, tx, tx.asset0) || AccountsSlot(pair, a, tx, tx.asset1))
  }

  predicate AccountsSlot(pair: string, a: Asset, tx: ParsedTx, moved: Asset) {
    && moved.addr == a.addr && moved.amount != ""
    && (moved.amount == a.amount || (tx.sender == pair && !("ibc/" <= a.addr) && |a.addr| > 20))
  }

  /** A transfer that no slot accounts for survives, as often as it occurs. */
  lemma {:induction false} UnaccountedSurvive(pairTxs: seq<ParsedTx>, transfers: seq<ParsedTx>, tx: ParsedTx)
    requires forall i: nat, j: nat :: IsSlot(pairTxs, i, j) ==> !Accounts(pairTxs[i].contract, Slot(pairTxs[i], j), tx)
    ensures multiset(Consume(PopList(pairTxs), transfers).survivors)[tx] == multiset(transfers)[tx]
  {
    forall e | e in PopList(pairTxs) ensures !MatchesPairTransferEntry(e, tx) {
      var i, j := EntriesAreSlots(pairTxs, e);
      AccountsOrNot(e, tx);
    }
    UnmatchedSurvive(PopList(pairTxs), transfers, tx);
  }

  lemma AccountsOrNot(e: PopEntry, tx: ParsedTx)
    ensures MatchesPairTransferEntry(e, tx) <==> Accounts(e.pairAddr, Asset(e.assetAddr, e.amount), tx)
  {
  }

  lemma {:induction false} UnmatchedSurvive(pop: seq<PopEntry>, transfers: seq<ParsedTx>, tx: ParsedTx)
    requires forall e :: e in pop ==> !MatchesPairTransferEntry(e, tx)
    ensures multiset(Consume(pop, transfers).survivors)[tx] == multiset(transfers)[tx]
    decreases |transfers|
  {
    if transfers != [] {
      var j := FirstMatch(pop, transfers[0]);
      assert transfers == [transfers[0]] + transfers[1..];
      if j < |pop| {
        assert pop[j] in pop;
        ClassesWithout(pop, j);
        UnmatchedSurvive(Without(pop, j), transfers[1..], tx);
      } else {
        UnmatchedSurvive(pop, transfers[1..], tx);
      }
    }
  }

  // ---- CW20 assets that do not keep apart ----

  const CW20 := "terra1cw20contract0000"

  /** A pair's change of that asset, as a pair transaction or as a transfer. */
  function Moved(pair: string, sender: string, amount: string): ParsedTx {
    ParsedTx(pair, sender, Asset(CW20, amount), Asset("", ""), 0)
  }

  /** A pair pays twice into another one. */
  const CrossedPairTxs: seq<ParsedTx> :=
    [Moved("p1", "u", "-50"), Moved("p1", "u", "-60"), Moved("p2", "u", "50"), Moved("p2", "u", "60")]
  const CrossedTransfers: seq<ParsedTx> :=
    [Moved("p1", "p1", "-50"), Moved("p2", "p1", "50"), Moved("p1", "p1", "-60"), Moved("p2", "p1", "60")]

  /** The list of entries with amounts of one asset. */
  lemma {:induction false} CrossedEntries()
    ensures PopList(CrossedPairTxs) == [CrossedEntry(0), CrossedEntry(1), CrossedEntry(2), CrossedEntry(3)]
  {
    var txs := CrossedPairTxs;
    assert txs[..4] == txs && txs[..0] == [] && PopList([]) == [];
    PopListGrows(txs, 0);
    PopListGrows(txs, 1);
    PopListGrows(txs, 2);
    PopListGrows(txs, 3);
  }

  lemma {:induction false} ConsumeOne(pop: seq<PopEntry>, transfers: seq<ParsedTx>, j: nat)
    requires transfers != [] && j < |pop| && MatchesPairTransferEntry(pop[j], transfers[0])
    requires forall m :: 0 <= m < j ==> !MatchesPairTransferEntry(pop[m], transfers[0])
    ensures Consume(pop, transfers).survivors == Consume(Without(pop, j), transfers[1..]).survivors
  {
  }

  function CrossedEntry(k: nat): PopEntry
    requires k < 4
  {
    [PopEntry("p1", CW20, "-50"), PopEntry("p1", CW20, "-60"), PopEntry("p2", CW20, "50"),
     PopEntry("p2", CW20, "60")][k]
  }

  lemma {:induction false} CrossedMatches()
    ensures MatchesPairTransferEntry(CrossedEntry(0), CrossedTransfers[0])
    ensures MatchesPairTransferEntry(CrossedEntry(1), CrossedTransfers[1])
    ensures !MatchesPairTransferEntry(CrossedEntry(2), CrossedTransfers[2])
    ensures !MatchesPairTransferEntry(CrossedEntry(3), CrossedTransfers[2])
    ensures !MatchesPairTransferEntry(CrossedEntry(2), CrossedTransfers[3])
    ensures MatchesPairTransferEntry(CrossedEntry(3), CrossedTransfers[3])
  {
    assert IsCw20TokenAddress(CW20) by { assert CW20[0] != 'i'; }
    assert "50"[0] != "60"[0];
  }

  lemma {:induction false} ConsumeNone(pop: seq<PopEntry>, transfers: seq<ParsedTx>)
    requires transfers != [] && forall e :: e in pop ==> !MatchesPairTransferEntry(e, transfers[0])
    ensures Consume(pop, transfers).survivors == [transfers[0]] + Consume(pop, transfers[1..]).survivors
  {
    assert forall m :: 0 <= m < |pop| ==> pop[m] in pop;
  }

  lemma {:induction false} FirstTwo(a: PopEntry, b: PopEntry, pop: seq<PopEntry>, x: ParsedTx, y: ParsedTx,
                                    ts: seq<ParsedTx>)
    requires MatchesPairTransferEntry(a, x) && MatchesPairTransferEntry(b, y)
    ensures Consume([a, b] + pop, [x, y] + ts).survivors == Consume(pop, ts).survivors
  {
    assert [a, b] + pop == [a] + ([b] + pop) && [x, y] + ts == [x] + ([y] + ts);
    HeadConsumed(a, [b] + pop, x, [y] + ts);
    HeadConsumed(b, pop, y, ts);
  }

  lemma {:induction false} HeadConsumed(a: PopEntry, pop: seq<PopEntry>, x: ParsedTx, ts: seq<ParsedTx>)
    requires MatchesPairTransferEntry(a, x)
    ensures Consume([a] + pop, [x] + ts).survivors == Consume(pop, ts).survivors
  {
    ConsumeOne([a] + pop, [x] + ts, 0);
    assert Without([a] + pop, 0) == pop && ([x] + ts)[1..] == ts;
  }

  lemma {:induction false} LastTwo(a: PopEntry, b: PopEntry, x: ParsedTx, y: ParsedTx)
    requires !MatchesPairTransferEntry(a, x) && !MatchesPairTransferEntry(b, x)
    requires !MatchesPairTransferEntry(a, y) && MatchesPairTransferEntry(b, y)
    ensures Consume([a, b], [x, y]).survivors == [x]
  {
    ConsumeNone([a, b], [x, y]);
    assert [x, y][1..] == [y];
    ConsumeOne([a, b], [y], 1);
    assert [y][1..] == [];
  }

  /** The second pay-out is not found, though every transfer carries a slot of its own: the
      first pay-in has taken its entry. */
  lemma {:induction false} CrossedTransferSurvives()
    ensures Carries(CrossedTransfers[0], "p1", CrossedPairTxs[0].asset0)
    ensures Carries(CrossedTransfers[1], "p2", CrossedPairTxs[2].asset0)
    ensures Carries(CrossedTransfers[2], "p1", CrossedPairTxs[1].asset0)
    ensures Carries(CrossedTransfers[3], "p2", CrossedPairTxs[3].asset0)
    ensures Consume(PopList(CrossedPairTxs), CrossedTransfers).survivors == [CrossedTransfers[2]]
  {
    CrossedCarry();
    CrossedOutcome();
  }

  lemma {:induction false} CrossedCarry()
    ensures Carries(CrossedTransfers[0], "p1", CrossedPairTxs[0].asset0)
    ensures Carries(CrossedTransfers[1], "p2", CrossedPairTxs[2].asset0)
    ensures Carries(CrossedTransfers[2], "p1", CrossedPairTxs[1].asset0)
    ensures Carries(CrossedTransfers[3], "p2", CrossedPairTxs[3].asset0)
  {
  }

  lemma {:induction false} CrossedOutcome()
    ensures Consume(PopList(CrossedPairTxs), CrossedTransfers).survivors == [CrossedTransfers[2]]
  {
    CrossedEntries();
    CrossedMatches();
    FourOutcome(CrossedEntry(0), CrossedEntry(1), CrossedEntry(2), CrossedEntry(3), CrossedTransfers);
  }

  lemma {:induction false} FourOutcome(a: PopEntry, b: PopEntry, c: PopEntry, d: PopEntry, ts: seq<ParsedTx>)
    requires |ts| == 4 && MatchesPairTransferEntry(a, ts[0]) && MatchesPairTransferEntry(b, ts[1])
    requires !MatchesPairTransferEntry(c, ts[2]) && !MatchesPairTransferEntry(d, ts[2])
    requires !MatchesPairTransferEntry(c, ts[3]) && MatchesPairTransferEntry(d, ts[3])
    ensures Consume([a, b, c, d], ts).survivors == [ts[2]]
  {
    FirstTwo(a, b, [c, d], ts[0], ts[1], [ts[2], ts[3]]);
    LastTwo(c, d, ts[2], ts[3]);
    assert [a, b, c, d] == [a, b] + [c, d];
    assert ts == [ts[0], ts[1]] + [ts[2], ts[3]];
  }
}
