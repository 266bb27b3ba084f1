/** Signed decimal amounts, kept as strings as the parser keeps them, and balances over
    parsed transactions (parser/dex/dto.go, parser/dex/util.go). */
module Amounts {
  const MAX_INT64: int := 0x7FFF_FFFF_FFFF_FFFF
  const MIN_INT64: int := -0x8000_0000_0000_0000
  const TWO_64: int := 0x1_0000_0000_0000_0000

  predicate IsDigit(c: char) {
    '0' <= c <= '9'
  }

  predicate IsDigits(s: string) {
    s != "" && forall i :: 0 <= i < |s| ==> IsDigit(s[i])
  }

  function DigitValue(c: char): nat
    requires IsDigit(c)
  {
    c as int - '0' as int
  }

  function Digits(s: string): nat
    requires forall i :: 0 <= i < |s| ==> IsDigit(s[i])
  {
    if s == "" then 0 else
      10 * Digits(s[..|s| - 1]) + DigitValue(s[|s| - 1])
  }

  predicate HasSign(s: string) {
    s != "" && (s[0] == '-' || s[0] == '+')
  }

  function Body(s: string): string {
    if HasSign(s) then s[1..] else s
  }

  /** The number an amount stands for; an empty or malformed amount stands for zero. */
  function Value(s: string): int {
    var n: int := if IsDigits(Body(s)) then Digits(Body(s)) else 0;
    if IsOutflow(s) then -n else n
  }

  predicate IsOutflow(s: string) {
    s != "" && s[0] == '-'
  }

  /** `strconv.ParseInt(s, 10, 64)` with its error dropped: malformed gives 0, out of range
      gives the nearest int64. */
  function ParseInt64(s: string): int {
    if Value(s) > MAX_INT64 then MAX_INT64 else if Value(s) < MIN_INT64 then MIN_INT64 else Value(s)
  }

  /** int64 arithmetic wraps around. */
  function Wrap64(x: int): int {
    var m := x % TWO_64;
    if m > MAX_INT64 then m - TWO_64 else m
  }

  function Abs64(x: int): int {
    if x < 0 then Wrap64(-x) else x
  }

  function Abs(x: int): nat {
    if x < 0 then -x else x
  }

  predicate Fits(s: string) {
    MIN_INT64 < Value(s) <= MAX_INT64
  }

  lemma FitsAbs(s: string)
    requires Fits(s)
    ensures Abs64(ParseInt64(s)) == Abs(Value(s))
  {
  }

  lemma ZeroAmounts()
    ensures Value("") == 0 && Value("0") == 0
  {
    assert Body("") == "" && Body("0") == "0";
    assert "0"[..0] == "";
  }

  // ---- parsed transactions ----

  datatype Asset = Asset(addr: string, amount: string)

  /** The balances of a pool. */
  datatype PoolInfo = PoolInfo(contractAddr: string, assets: seq<Asset>, lpAddr: string, totalShare: string)

  /** The two asset slots of a pair, and the fields the deduplication reads. */
  datatype ParsedTx = ParsedTx(contract: string, sender: string, asset0: Asset, asset1: Asset, msgIndex: int)

  function Slot(tx: ParsedTx, j: nat): Asset {
    if j == 0 then tx.asset0 else tx.asset1
  }

  function Part(a: Asset, asset: string): int {
    if a.addr == asset then Value(a.amount) else 0
  }

  /** What a transaction adds to a pair's balance of an asset. */
  function Contribution(tx: ParsedTx, pair: string, asset: string): int {
    if tx.contract == pair then Part(tx.asset0, asset) + Part(tx.asset1, asset) else 0
  }

  function Net(txs: seq<ParsedTx>, pair: string, asset: string): int {
    if txs == [] then 0 else Contribution(txs[0], pair, asset) + Net(txs[1..], pair, asset)
  }

  lemma {:induction false} NetConcat(a: seq<ParsedTx>, b: seq<ParsedTx>, pair: string, asset: string)
    ensures Net(a + b, pair, asset) == Net(a, pair, asset) + Net(b, pair, asset)
  {
    if a == [] {
      assert a + b == b;
    } else {
      assert (a + b)[1..] == a[1..] + b;
      NetConcat(a[1..], b, pair, asset);
    }
  }
}
