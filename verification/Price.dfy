/** Prices along swap routes and the choice among them (pkg/dex/price/price.go,
    pkg/dex/price/repository.go). Amounts are integers, prices and liquidities are reals. */
module Price {
  import opened Attempts
  import opened Decimals
  import opened Options

  /** What the database answers: a token's decimals, and the amounts in the pool of two
      tokens at a height, in the order they are asked for. `None` is an error. */
  datatype Source = Source(decimals: string -> Option<nat>, liquidity: (nat, string, string) -> Option<(int, int)>)

  const LIQUIDITY_LOWER_THRESHOLD := 10.0

  /** An amount in units of its token. */
  function Scaled(amount: int, decimals: nat): real {
    amount as real / Pow10(decimals)
  }

  /** The two sides of one pool, `None` when something cannot be read. */
  function Pool(source: Source, height: nat, a: string, b: string): Option<(real, real)> {
    if source.decimals(a).None? || source.decimals(b).None? || source.liquidity(height, a, b).None? then None
    else
      var amounts := source.liquidity(height, a, b).value;
      Some((Scaled(amounts.0, source.decimals(a).value), Scaled(amounts.1, source.decimals(b).value)))
  }

  /** A pool is read in the order of its two tokens, each amount in units of its own token. */
  lemma PoolMeans(source: Source, height: nat, a: string, b: string)
    ensures Pool(source, height, a, b).Some? <==>
      source.decimals(a).Some? && source.decimals(b).Some? && source.liquidity(height, a, b).Some?
    ensures Pool(source, height, a, b).Some? ==>
      var (pool, amounts) := (Pool(source, height, a, b).value, source.liquidity(height, a, b).value);
      && pool.0 * Pow10(source.decimals(a).value) == amounts.0 as real
      && pool.1 * Pow10(source.decimals(b).value) == amounts.1 as real
  {
  }

  /** The price over one pool: units of the price token for one unit of the token. */
  lemma {:induction false} OneHopPrice(source: Source, height: nat, token: string, end: string)
    requires Read(source, height, [token, end]).Pools?
    ensures source.decimals(token).Some? && source.decimals(end).Some? && source.liquidity(height, token, end).Some?
    ensures var (x, y) := source.liquidity(height, token, end).value;
            var pools := Read(source, height, [token, end]).pools;
            && x != 0 && |pools| == 1
            && PriceOf(pools) == (y as real / Pow10(source.decimals(end).value)) /
                                 (x as real / Pow10(source.decimals(token).value))
            && LiquiditiesOf(pools) == [(y as real / Pow10(source.decimals(end).value)) * 2.0 * 1.0]
  {
    assert [token, end][1..] == [end];
    var pools := Read(source, height, [token, end]).pools;
    assert pools[1..] == [] && PriceOf([]) == 1.0;
  }

  /** A token of 6 decimals and a price token of 8, 20 and 50 units of them: the price is 2.5. */
  lemma {:induction false} DecimalsScale(source: Source, height: nat)
    requires source.decimals("t") == Some(6) && source.decimals("p") == Some(8)
    requires source.liquidity(height, "t", "p") == Some((20_000_000, 5_000_000_000))
    ensures Read(source, height, ["t", "p"]).Pools? && PriceOf(Read(source, height, ["t", "p"]).pools) == 2.5
  {
    assert Pow10(2) == 100.0;
    assert Pow10(4) == 10000.0;
    assert Pow10(6) == 1000000.0;
    assert Pow10(8) == 100000000.0;
    assert ["t", "p"][1..] == ["p"];
    assert Pool(source, height, "t", "p") == Some((20.0, 50.0));
    OneHopPrice(source, height, "t", "p");
  }

  predicate Deep(pool: (real, real)) {
    pool.0 >= LIQUIDITY_LOWER_THRESHOLD && pool.1 >= LIQUIDITY_LOWER_THRESHOLD
  }

  type DeepPool = p: (real, real) | Deep(p) witness (10.0, 10.0)

  /** The ratio of the second side to the first. */
  function Ratio(pool: DeepPool): (r: real)
    ensures r > 0.0 && r * pool.0 == pool.1
  {
    pool.1 / pool.0
  }

  /** Twice an amount, at a price. */
  function Worth(amount: real, price: real): real {
    amount * 2.0 * price
  }

  /** The pools along a path. `Thin`: one of them is below the threshold; `Failed`: one of
      them cannot be read. The last such pool decides, and what lies before it is not looked at. */
  datatype Reading = Pools(pools: seq<DeepPool>) | Thin | Failed

  function Read(source: Source, height: nat, path: seq<string>): (r: Reading)
    ensures r.Pools? && |path| > 0 ==> |r.pools| == |path| - 1
  {
    if |path| <= 1 then Pools([])
    else
      var rest := Read(source, height, path[1..]);
      if !rest.Pools? then rest
      else
        var pool := Pool(source, height, path[0], path[1]);
        if pool.None? then Failed
        else if !Deep(pool.value) then Thin
        else Pools([pool.value] + rest.pools)
  }

  /** The price of the first token of a chain of pools in its last. */
  function PriceOf(pools: seq<DeepPool>): (price: real)
    ensures price > 0.0
  {
    if pools == [] then 1.0
    else
      Ratio(pools[0]) * PriceOf(pools[1..])
  }

  /** For every pool twice its second side, valued in the last token. */
  function LiquiditiesOf(pools: seq<DeepPool>): (liquidities: seq<real>)
    ensures |liquidities| == |pools|
  {
    if pools == [] then [] else [Worth(pools[0].1, PriceOf(pools[1..]))] + LiquiditiesOf(pools[1..])
  }

  ghost predicate DeepAt(source: Source, height: nat, path: seq<string>, i: nat)
    requires i + 1 < |path|
  {
    var pool := Pool(source, height, path[i], path[i + 1]);
    pool.Some? && Deep(pool.value)
  }

  ghost predicate PoolIs(source: Source, height: nat, path: seq<string>, i: nat, pool: DeepPool)
    requires i + 1 < |path|
  {
    var read := Pool(source, height, path[i], path[i + 1]);
    read.Some? && read.value == pool
  }

  /** A path is priced exactly when every pool on it can be read and is deep enough; the
      reading then holds the pools of its hops. */
  lemma {:induction false} PricedIffDeep(source: Source, height: nat, path: seq<string>)
    ensures Read(source, height, path).Pools?
      <==> forall i: nat :: i + 1 < |path| ==> DeepAt(source, height, path, i)
    ensures Read(source, height, path).Pools? ==> forall i: nat :: i + 1 < |path| ==>
      PoolIs(source, height, path, i, Read(source, height, path).pools[i])
  {
    if |path| > 1 {
      var rest := path[1..];
      PricedIffDeep(source, height, rest);
      forall i: nat | i + 1 < |rest|
        ensures DeepAt(source, height, rest, i) <==> DeepAt(source, height, path, i + 1)
      {}
      if forall i: nat :: i + 1 < |path| ==> DeepAt(source, height, path, i) {
        assert DeepAt(source, height, path, 0);
      }
      if Read(source, height, path).Pools? {
        forall i: nat | i + 1 < |path|
          ensures PoolIs(source, height, path, i, Read(source, height, path).pools[i])
          ensures DeepAt(source, height, path, i)
        {
          if i > 0 {
            assert PoolIs(source, height, rest, i - 1, Read(source, height, rest).pools[i - 1]);
          }
        }
      }
    }
  }

  lemma Associate(x: real, y: real, z: real)
    ensures x * (y * z) == x * y * z
  {
  }

  /** Prices compose: over two chains in a row they multiply. */
  lemma {:induction false} PriceComposes(a: seq<DeepPool>, b: seq<DeepPool>)
    ensures PriceOf(a + b) == PriceOf(a) * PriceOf(b)
  {
    if a == [] {
      assert a + b == b;
    } else {
      assert (a + b)[1..] == a[1..] + b && (a + b)[0] == a[0];
      PriceComposes(a[1..], b);
      Associate(Ratio(a[0]), PriceOf(a[1..]), PriceOf(b));
    }
  }

  /** The product of the hop ratios, from the front. */
  function Product(pools: seq<DeepPool>): real
  {
    if pools == [] then 1.0
    else Product(pools[..|pools| - 1]) * Ratio(pools[|pools| - 1])
  }

  /** Running backwards from the price token gives the product of the hop ratios. */
  lemma {:induction false} PriceIsProduct(pools: seq<DeepPool>)
    ensures PriceOf(pools) == Product(pools)
  {
    if pools != [] {
      var n := |pools| - 1;
      assert pools == pools[..n] + [pools[n]];
      PriceComposes(pools[..n], [pools[n]]);
      PriceIsProduct(pools[..n]);
      PriceOfOne(pools[n]);
    }
  }

  lemma {:induction false} PriceOfOne(pool: DeepPool)
    ensures PriceOf([pool]) == Ratio(pool)
  {
    assert [pool][1..] == [];
  }

  lemma {:induction false} LiquidityAt(pools: seq<DeepPool>, k: nat)
    requires k < |pools|
    ensures LiquiditiesOf(pools)[k] == Worth(pools[k].1, PriceOf(pools[k + 1..]))
            == Worth(pools[k].0, PriceOf(pools[k..]))
  {
    if k == 0 {
      assert pools[0..] == pools;
      SidesAreWorthTheSame(pools[0], PriceOf(pools[1..]));
    } else {
      LiquidityAt(pools[1..], k - 1);
      assert pools[1..][k - 1..] == pools[k..] && pools[1..][k..] == pools[k + 1..];
    }
  }

  /** The liquidity of a hop counts one side of its pool twice, and it does not matter which:
      valued in the last token, both sides are worth the same. */
  lemma {:induction false} LiquidityIsPoolValue(pools: seq<DeepPool>, k: nat)
    requires k < |pools|
    ensures LiquiditiesOf(pools)[k] == pools[k].1 * 2.0 * PriceOf(pools[k + 1..]) ==
            pools[k].0 * 2.0 * PriceOf(pools[k..])
  {
    LiquidityAt(pools, k);
  }

  lemma SidesAreWorthTheSame(pool: DeepPool, price: real)
    ensures Worth(pool.1, price) == Worth(pool.0, Ratio(pool) * price)
  {
    Associate(pool.0 * 2.0, Ratio(pool), price);
  }

  /** A route with its price. */
  datatype Candidate = Candidate(route: seq<string>, price: real, liquidities: seq<real>)

  /** The sign of the first difference, over the length of the second. */
  function Compare(a: seq<real>, b: seq<real>): (c: int)
    requires |a| >= |b|
    decreases |b|
  {
    if |b| == 0 then 0
    else if a[0] > b[0] then 1
    else if a[0] < b[0] then -1
    else Compare(a[1..], b[1..])
  }

  /** The candidate replaces the best one: more liquidity at the first difference, or none
      over the length of the best and a lower price. */
  predicate Beats(c: Candidate, best: Candidate)
    requires |c.liquidities| >= |best.liquidities|
  {
    var order := Compare(c.liquidities, best.liquidities);
    order > 0 || (order == 0 && c.price < best.price)
  }

  predicate ByHops(cs: seq<Candidate>) {
    && (forall c :: c in cs ==> |c.liquidities| > 0)
    && (forall i, j :: 0 <= i < j < |cs| ==> |cs[i].liquidities| <= |cs[j].liquidities|)
  }

  function Next(best: Candidate, c: Candidate): Candidate
    requires |c.liquidities| >= |best.liquidities|
  {
    if Beats(c, best) then c else best
  }

  /** One pass over the priced routes. */
  function Choose(cs: seq<Candidate>): (best: Candidate)
    requires cs != [] && ByHops(cs)
    ensures best in cs
  {
    if |cs| == 1 then cs[0]
    else Next(Choose(cs[..|cs| - 1]), cs[|cs| - 1])
  }

  lemma FirstHopOfNext(best: Candidate, c: Candidate)
    requires |c.liquidities| >= |best.liquidities| > 0
    ensures Next(best, c).liquidities[0] >= best.liquidities[0] && Next(best, c).liquidities[0] >= c.liquidities[0]
  {
  }

  /** No route has more first-hop liquidity than the chosen one, whatever the lengths. */
  lemma {:induction false} ChosenHasDeepestFirstHop(cs: seq<Candidate>, c: Candidate)
    requires cs != [] && ByHops(cs) && c in cs
    ensures c.liquidities[0] <= Choose(cs).liquidities[0]
  {
    var n := |cs| - 1;
    if n > 0 {
      var best := Choose(cs[..n]);
      assert best in cs && cs[n] in cs;
      FirstHopOfNext(best, cs[n]);
      if c in cs[..n] {
        ChosenHasDeepestFirstHop(cs[..n], c);
      } else {
        assert c == cs[n];
      }
    }
  }

  /** The first difference is at `k`, and the first list is greater there. */
  ghost predicate MoreAt(a: seq<real>, b: seq<real>, k: nat) {
    k < |a| && k < |b| && a[..k] == b[..k] && a[k] > b[k]
  }

  /** The comparison looks for the first difference over the length of the second list. */
  lemma {:induction false} CompareMeans(a: seq<real>, b: seq<real>)
    requires |a| >= |b|
    ensures Compare(a, b) == 0 <==> a[..|b|] == b
    ensures Compare(a, b) > 0 <==> exists k: nat :: MoreAt(a, b, k)
    ensures Compare(a, b) < 0 <==> exists k: nat :: MoreAt(b, a, k)
    decreases |b|
  {
    if |b| == 0 {
    } else if a[0] == b[0] {
      CompareMeans(a[1..], b[1..]);
      assert a[..|b|] == [a[0]] + a[1..][..|b| - 1] && b == [b[0]] + b[1..];
      MoreShifts(a, b);
      MoreShifts(b, a);
    } else {
      assert MoreAt(a, b, 0) || MoreAt(b, a, 0);
      MoreOnce(a, b);
    }
  }

  /** Lists that differ at once have no other first difference. */
  lemma {:induction false} MoreOnce(a: seq<real>, b: seq<real>)
    requires |a| > 0 && |b| > 0 && a[0] != b[0]
    ensures forall k: nat :: k > 0 ==> !MoreAt(a, b, k) && !MoreAt(b, a, k)
  {
    forall k: nat | 0 < k < |a| && k < |b| ensures a[..k] != b[..k] {
      assert a[..k][0] == a[0] && b[..k][0] == b[0];
    }
  }

  lemma {:induction false} MoreShifts(a: seq<real>, b: seq<real>)
    requires |a| > 0 && |b| > 0 && a[0] == b[0]
    ensures (exists k: nat :: MoreAt(a, b, k)) <==> exists k: nat :: MoreAt(a[1..], b[1..], k)
  {
    if k: nat :| MoreAt(a, b, k) {
      assert a[1..][..k - 1] == a[..k][1..] && b[1..][..k - 1] == b[..k][1..];
      assert MoreAt(a[1..], b[1..], k - 1);
    }
    if k: nat :| MoreAt(a[1..], b[1..], k) {
      assert a[..k + 1] == [a[0]] + a[1..][..k] && b[..k + 1] == [b[0]] + b[1..][..k];
      assert MoreAt(a, b, k + 1);
    }
  }

  lemma {:induction false} CompareOrders(a: seq<real>, b: seq<real>, c: seq<real>)
    requires |a| >= |b| && |b| >= |c|
    ensures Compare(a, b) == 0 ==> Compare(a, c) == Compare(b, c)
    ensures Compare(a, b) >= 0 && Compare(b, c) > 0 ==> Compare(a, c) > 0
    ensures |b| == |c| && Compare(a, b) > 0 && Compare(b, c) >= 0 ==> Compare(a, c) > 0
    decreases |c|
  {
    if |c| > 0 && a[0] == b[0] == c[0] {
      CompareOrders(a[1..], b[1..], c[1..]);
    }
  }

  lemma {:induction false} CompareFlips(a: seq<real>, b: seq<real>)
    requires |a| == |b|
    ensures Compare(a, b) == -Compare(b, a)
    decreases |b|
  {
    if |b| > 0 && a[0] == b[0] {
      CompareFlips(a[1..], b[1..]);
    }
  }

  /** The best route so far leads: nothing seen that is as long or longer beats it. */
  ghost predicate Leads(best: Candidate, seen: seq<Candidate>) {
    forall s :: s in seen && |s.liquidities| >= |best.liquidities| ==> !Beats(s, best)
  }

  /** The tie branch takes a longer route although one as long was passed over before. */
  ghost predicate OvertakesBetter(best: Candidate, c: Candidate, seen: seq<Candidate>) {
    && |c.liquidities| > |best.liquidities|
    && Compare(c.liquidities, best.liquidities) == 0 && c.price < best.price
    && exists s :: s in seen && |s.liquidities| >= |c.liquidities| && Beats(s, c)
  }

  lemma StaysBeaten(s: Candidate, c: Candidate, best: Candidate)
    requires |s.liquidities| >= |c.liquidities| >= |best.liquidities|
    requires !Beats(s, best) && Beats(c, best)
    requires Compare(c.liquidities, best.liquidities) > 0 || |c.liquidities| == |best.liquidities|
    ensures !Beats(s, c)
  {
    CompareOrders(s.liquidities, c.liquidities, best.liquidities);
  }

  /** A step keeps the lead except exactly when a tie with a shorter route is decided by price
      in favour of a route that a passed-over one beats. */
  lemma StepKeepsLead(best: Candidate, c: Candidate, seen: seq<Candidate>)
    requires Leads(best, seen) && |c.liquidities| >= |best.liquidities|
    requires forall s :: s in seen ==> |s.liquidities| <= |c.liquidities|
    ensures Leads(Next(best, c), seen + [c]) <==> !OvertakesBetter(best, c, seen)
  {
    CompareFlips(c.liquidities, c.liquidities);
    if Beats(c, best) {
      var order := Compare(c.liquidities, best.liquidities);
      if order > 0 || |c.liquidities| == |best.liquidities| {
        forall s | s in seen && |s.liquidities| >= |c.liquidities|
          ensures !Beats(s, c)
        {
          StaysBeaten(s, c, best);
        }
      } else if OvertakesBetter(best, c, seen) {
        var s :| s in seen && |s.liquidities| >= |c.liquidities| && Beats(s, c);
        assert s in seen + [c];
      }
    }
  }

  /** No priced route's liquidities start with those of a shorter one. */
  ghost predicate NoTies(cs: seq<Candidate>) {
    forall a, b :: a in cs && b in cs && |a.liquidities| > |b.liquidities| ==>
      Compare(a.liquidities, b.liquidities) != 0
  }

  /** Without such ties (in particular when all routes are equally long) nothing that is as
      long as the chosen route or longer beats it: it has the lexicographically greatest
      liquidities, and the lowest price among equals. */
  lemma {:induction false} ChosenLeads(cs: seq<Candidate>)
    requires cs != [] && ByHops(cs) && NoTies(cs)
    ensures Leads(Choose(cs), cs)
  {
    var n := |cs| - 1;
    if n == 0 {
      CompareFlips(cs[0].liquidities, cs[0].liquidities);
    } else {
      PrefixHasNoTies(cs, n);
      ChosenLeads(cs[..n]);
      LastKeepsLead(cs, n);
    }
  }

  lemma PrefixHasNoTies(cs: seq<Candidate>, n: nat)
    requires n <= |cs| && ByHops(cs) && NoTies(cs)
    ensures ByHops(cs[..n]) && NoTies(cs[..n])
  {
    assert forall s :: s in cs[..n] ==> s in cs;
  }

  lemma {:induction false} LastKeepsLead(cs: seq<Candidate>, n: nat)
    requires n == |cs| - 1 > 0 && ByHops(cs) && NoTies(cs) && ByHops(cs[..n])
    requires Leads(Choose(cs[..n]), cs[..n])
    ensures Leads(Choose(cs), cs)
  {
    var best, last := Choose(cs[..n]), cs[n];
    assert Choose(cs) == Next(best, last);
    assert best in cs && last in cs;
    forall s | s in cs && |s.liquidities| >= |Choose(cs).liquidities|
      ensures !Beats(s, Choose(cs))
    {
      assert s == last || s in cs[..n];
      assert |s.liquidities| <= |last.liquidities|;
      NoTieStep(best, last, s);
    }
  }

  /** The step for one rival, when the new route does not tie with a shorter best one. */
  lemma NoTieStep(best: Candidate, c: Candidate, s: Candidate)
    requires |best.liquidities| <= |c.liquidities|
    requires |c.liquidities| > |best.liquidities| ==> Compare(c.liquidities, best.liquidities) != 0
    requires |Next(best, c).liquidities| <= |s.liquidities| <= |c.liquidities|
    requires s == c || !(|s.liquidities| >= |best.liquidities| && Beats(s, best))
    ensures !Beats(s, Next(best, c))
  {
    var seen := if s == c then [] else [s];
    StepKeepsLead(best, c, seen);
    assert s in seen + [c];
  }

  lemma EqualLengthsHaveNoTies(cs: seq<Candidate>, n: nat)
    requires forall c :: c in cs ==> |c.liquidities| == n
    ensures NoTies(cs)
  {
  }

  /** For equally long routes: the lexicographic maximum, the lowest price on ties. */
  lemma {:induction false} EqualLengthChoice(cs: seq<Candidate>, n: nat, c: Candidate)
    requires cs != [] && ByHops(cs) && c in cs
    requires forall d :: d in cs ==> |d.liquidities| == n
    ensures Compare(c.liquidities, Choose(cs).liquidities) <= 0
    ensures c.liquidities == Choose(cs).liquidities ==> Choose(cs).price <= c.price
  {
    EqualLengthsHaveNoTies(cs, n);
    ChosenLeads(cs);
    CompareFlips(c.liquidities, c.liquidities);
    assert !Beats(c, Choose(cs));
  }

  // ---- which runs end on a route that leads ----

  /** At `m` a longer route takes over. */
  ghost predicate Grows(cs: seq<Candidate>, m: nat)
    requires ByHops(cs)
  {
    0 < m < |cs| && |cs[m].liquidities| > |Choose(cs[..m]).liquidities| && Beats(cs[m], Choose(cs[..m]))
  }

  /** The last longer route that took over did so by price, on a tie, and a route passed over
      before it beats all routes of its length from there on. */
  ghost predicate Overtaken(cs: seq<Candidate>, m: nat)
    requires ByHops(cs)
  {
    && Grows(cs, m) && (forall j :: m < j ==> !Grows(cs, j))
    && Compare(cs[m].liquidities, Choose(cs[..m]).liquidities) == 0
    && exists s :: s in cs[..m] && SurpassesRest(s, cs, m)
  }

  ghost predicate SurpassesRest(s: Candidate, cs: seq<Candidate>, m: nat)
    requires m < |cs|
  {
    && |s.liquidities| == |cs[m].liquidities|
    && forall d :: d in cs[m..] && |d.liquidities| == |cs[m].liquidities| ==> Beats(s, d)
  }

  lemma PrefixByHops(cs: seq<Candidate>, n: nat)
    requires n <= |cs| && ByHops(cs)
    ensures ByHops(cs[..n])
  {
    assert forall s :: s in cs[..n] ==> s in cs;
  }

  lemma {:induction false} GrowsInPrefix(cs: seq<Candidate>, n: nat, m: nat)
    requires n <= |cs| && ByHops(cs) && ByHops(cs[..n]) && m < n
    ensures Grows(cs[..n], m) <==> Grows(cs, m)
  {
    assert cs[..n][..m] == cs[..m];
  }

  /** The place of the last growth, 0 if there is none. */
  lemma {:induction false} LastGrowth(cs: seq<Candidate>, n: nat) returns (m: nat)
    requires 0 < n <= |cs| && ByHops(cs)
    ensures m < n && (m == 0 || Grows(cs, m)) && forall j :: m < j < n ==> !Grows(cs, j)
  {
    if n == 1 || Grows(cs, n - 1) {
      m := n - 1;
    } else {
      m := LastGrowth(cs, n - 1);
    }
  }

  /** From the last growth on the choice leads. */
  lemma {:induction false} LeadsSince(cs: seq<Candidate>, m: nat)
    requires m < |cs| && ByHops(cs) && (m == 0 || Grows(cs, m)) && forall j :: m < j < |cs| ==> !Grows(cs, j)
    ensures Choose(cs) in cs[m..] && |Choose(cs).liquidities| == |cs[m].liquidities|
    ensures Leads(Choose(cs), cs[m..])
    decreases |cs|
  {
    var n := |cs| - 1;
    if m == n {
      GrowthLeads(cs, m);
    } else {
      PrefixByHops(cs, n);
      forall j: nat | j < n ensures Grows(cs[..n], j) <==> Grows(cs, j) { GrowsInPrefix(cs, n, j); }
      LeadsSince(cs[..n], m);
      assert cs[..n][m..] == cs[m..n];
      LeadsOn(cs, n, m);
    }
  }

  lemma {:induction false} GrowthLeads(cs: seq<Candidate>, m: nat)
    requires m == |cs| - 1 && ByHops(cs) && (m == 0 || Grows(cs, m))
    ensures Choose(cs) == cs[m] && cs[m..] == [cs[m]]
    ensures Leads(cs[m], [cs[m]])
  {
    CompareFlips(cs[m].liquidities, cs[m].liquidities);
  }

  lemma {:induction false} LeadsOn(cs: seq<Candidate>, n: nat, m: nat)
    requires m < n == |cs| - 1 && ByHops(cs) && ByHops(cs[..n]) && !Grows(cs, n)
    requires Choose(cs[..n]) in cs[m..n] && |Choose(cs[..n]).liquidities| == |cs[m].liquidities|
    requires Leads(Choose(cs[..n]), cs[m..n])
    ensures Choose(cs) in cs[m..] && |Choose(cs).liquidities| == |cs[m].liquidities|
    ensures Leads(Choose(cs), cs[m..])
  {
    var best, c, seen := Choose(cs[..n]), cs[n], cs[m..n];
    SinceGrows(cs, n, m);
    ChooseStep(cs, n);
    LeadStep(best, c, seen);
  }

  lemma {:induction false} ChooseStep(cs: seq<Candidate>, n: nat)
    requires 0 < n == |cs| - 1 && ByHops(cs) && ByHops(cs[..n])
    ensures |cs[n].liquidities| >= |Choose(cs[..n]).liquidities| && Choose(cs) == Next(Choose(cs[..n]), cs[n])
  {
  }

  lemma {:induction false} SinceGrows(cs: seq<Candidate>, n: nat, m: nat)
    requires m < n == |cs| - 1 && ByHops(cs)
    ensures cs[m..] == cs[m..n] + [cs[n]]
    ensures forall s :: s in cs[m..n] ==> |s.liquidities| <= |cs[n].liquidities|
    ensures |cs[m].liquidities| <= |cs[n].liquidities|
  {
  }

  /** A step that is no growth keeps the lead. */
  lemma {:induction false} LeadStep(best: Candidate, c: Candidate, seen: seq<Candidate>)
    requires Leads(best, seen) && best in seen && |c.liquidities| >= |best.liquidities|
    requires forall s :: s in seen ==> |s.liquidities| <= |c.liquidities|
    requires |c.liquidities| > |best.liquidities| ==> !Beats(c, best)
    ensures Leads(Next(best, c), seen + [c]) && Next(best, c) in seen + [c]
    ensures |Next(best, c).liquidities| == |best.liquidities|
  {
    StepKeepsLead(best, c, seen);
  }

  /** No route longer than the choice beats it. */
  lemma {:induction false} LongerDoNotBeat(cs: seq<Candidate>, s: Candidate)
    requires cs != [] && ByHops(cs) && s in cs && |s.liquidities| > |Choose(cs).liquidities|
    ensures !Beats(s, Choose(cs))
  {
    var n := |cs| - 1;
    if n > 0 {
      PrefixByHops(cs, n);
      assert Choose(cs) == Next(Choose(cs[..n]), cs[n]);
      assert s == cs[n] || s in cs[..n];
      assert |s.liquidities| <= |cs[n].liquidities|;
      if s in cs[..n] && !Beats(cs[n], Choose(cs[..n])) { LongerDoNotBeat(cs[..n], s); }
    }
  }

  lemma {:induction false} BeatsThrough(s: Candidate, best: Candidate, d: Candidate)
    requires |s.liquidities| == |best.liquidities| == |d.liquidities|
    requires Beats(s, best) && !Beats(d, best)
    ensures Beats(s, d)
  {
    CompareFlips(d.liquidities, best.liquidities);
    CompareOrders(s.liquidities, best.liquidities, d.liquidities);
  }

  lemma {:induction false} NoLongerBefore(cs: seq<Candidate>, m: nat, s: Candidate)
    requires m < |cs| && ByHops(cs) && s in cs[..m]
    ensures |s.liquidities| <= |cs[m].liquidities|
  {
  }

  /** What beats the final choice, if as long, was passed over at the last growth. */
  lemma {:induction false} BeatenIsOvertaken(cs: seq<Candidate>, s: Candidate) returns (m: nat)
    requires cs != [] && ByHops(cs) && s in cs && |s.liquidities| >= |Choose(cs).liquidities| && Beats(s, Choose(cs))
    ensures Overtaken(cs, m)
  {
    m := LastGrowth(cs, |cs|);
    LeadsSince(cs, m);
    assert cs == cs[..m] + cs[m..];
    NoLongerBefore(cs, m, s);
    PrefixByHops(cs, m);
    LongerDoNotBeat(cs[..m], s);
    forall d | d in cs[m..] && |d.liquidities| == |cs[m].liquidities| ensures Beats(s, d) {
      BeatsThrough(s, Choose(cs), d);
    }
    assert SurpassesRest(s, cs, m) && cs[m] in cs[m..];
    if Compare(cs[m].liquidities, Choose(cs[..m]).liquidities) > 0 {
      StaysBeaten(s, cs[m], Choose(cs[..m]));
    }
  }

  /** The pass ends on a route that nothing as long or longer beats, exactly unless the last
      take-over by a longer route went by price past a route that stays ahead. */
  lemma {:induction false} LeadsIffNotOvertaken(cs: seq<Candidate>)
    requires cs != [] && ByHops(cs)
    ensures Leads(Choose(cs), cs) <==> forall m: nat :: !Overtaken(cs, m)
  {
    if m: nat :| Overtaken(cs, m) {
      LeadsSince(cs, m);
      var s :| s in cs[..m] && SurpassesRest(s, cs, m);
      assert s in cs && Beats(s, Choose(cs));
    } else if !Leads(Choose(cs), cs) {
      var s :| s in cs && |s.liquidities| >= |Choose(cs).liquidities| && Beats(s, Choose(cs));
      var m := BeatenIsOvertaken(cs, s);
      assert false;
    }
  }

  function CandidateOf(route: seq<string>, pools: seq<DeepPool>): Candidate
  {
    Candidate(route, PriceOf(pools), LiquiditiesOf(pools))
  }

  /** The priced routes of a list, in order. */
  function PricedRoutes(source: Source, height: nat, token: string, routes: seq<seq<string>>): (cs: seq<Candidate>)
  {
    if routes == [] then []
    else
      var last := routes[|routes| - 1];
      var reading := Read(source, height, [token] + last);
      PricedRoutes(source, height, token, routes[..|routes| - 1]) +
      if reading.Pools? then [CandidateOf(last, reading.pools)] else []
  }

  ghost predicate RoutesByHops(routes: seq<seq<string>>) {
    && (forall r :: r in routes ==> r != [])
    && (forall i, j :: 0 <= i < j < |routes| ==> |routes[i]| <= |routes[j]|)
  }

  lemma {:induction false} PricedRoutesAre(source: Source, height: nat, token: string, routes: seq<seq<string>>)
    ensures forall c :: c in PricedRoutes(source, height, token, routes) <==>
      c.route in routes && Read(source, height, [token] + c.route).Pools? &&
      c == CandidateOf(c.route, Read(source, height, [token] + c.route).pools)
  {
    if routes != [] {
      PricedRoutesAre(source, height, token, routes[..|routes| - 1]);
      assert routes == routes[..|routes| - 1] + [routes[|routes| - 1]];
    }
  }

  lemma RoutesPrefix(routes: seq<seq<string>>, n: nat)
    requires RoutesByHops(routes) && n <= |routes|
    ensures RoutesByHops(routes[..n])
  {
    assert forall r :: r in routes[..n] ==> r in routes;
  }

  lemma {:induction false} PricedRoutesByHops(source: Source, height: nat, token: string, routes: seq<seq<string>>)
    requires RoutesByHops(routes)
    ensures ByHops(PricedRoutes(source, height, token, routes))
    ensures forall c :: c in PricedRoutes(source, height, token, routes) ==> |c.liquidities| == |c.route|
    ensures routes != [] ==> forall c :: c in PricedRoutes(source, height, token, routes) ==>
      |c.liquidities| <= |routes[|routes| - 1]|
  {
    PricedRoutesAre(source, height, token, routes);
    if routes != [] {
      var n := |routes| - 1;
      var before := routes[..n];
      RoutesPrefix(routes, n);
      PricedRoutesByHops(source, height, token, before);
      if n > 0 { assert |before[n - 1]| <= |routes[n]|; }
    }
  }

  // ---- a source on which the choice does not lead ----

  lemma {:induction false} ReadsOneHop(source: Source, height: nat, a: string, b: string, pool: DeepPool)
    requires var read := Pool(source, height, a, b); read.Some? && read.value == pool
    ensures Read(source, height, [a] + [b]) == Pools([pool])
  {
    assert ([a] + [b])[1..] == [b];
  }

  lemma {:induction false} ReadsTwoHops(source: Source, height: nat, a: string, b: string, c: string, p: DeepPool,
                                        q: DeepPool)
    requires var read := Pool(source, height, a, b); read.Some? && read.value == p
    requires var read := Pool(source, height, b, c); read.Some? && read.value == q
    ensures Read(source, height, [a] + [b, c]) == Pools([p, q])
  {
    ReadsOneHop(source, height, b, c, q);
    assert ([a] + [b, c])[1..] == [b] + [c];
    assert [p] + [q] == [p, q];
  }

  lemma {:induction false} OneHopCandidate(route: seq<string>, pool: DeepPool)
    ensures CandidateOf(route, [pool]) == Candidate(route, Ratio(pool), [Worth(pool.1, 1.0)])
  {
    assert [pool][1..] == [];
  }

  lemma {:induction false} TwoHopCandidate(route: seq<string>, p: DeepPool, q: DeepPool)
    ensures CandidateOf(route, [p, q]) ==
            Candidate(route, Ratio(p) * Ratio(q), [Worth(p.1, Ratio(q)), Worth(q.1, 1.0)])
  {
    assert [p, q][1..] == [q];
    OneHopCandidate(route, q);
  }

  /** Pools of a token `t` with the price token `p`, directly and through `x`, `y` and `z`. */
  function TiedAmounts(a: string, b: string): Option<(int, int)> {
    if a == "t" && b == "p" then Some((20, 25))
    else if a == "t" && b == "x" then Some((10, 25))
    else if a == "x" && b == "p" then Some((45, 45))
    else if a == "t" && b == "y" then Some((25, 25))
    else if a == "y" && b == "p" then Some((10, 10))
    else if a == "t" && b == "z" then Some((10, 25))
    else if a == "z" && b == "p" then Some((20, 20))
    else None
  }

  function TiedSource(): Source {
    Source(_ => Some(0), (_, a, b) => TiedAmounts(a, b))
  }

  const TiedRoutes: seq<seq<string>> := [["p"], ["x", "p"], ["y", "p"], ["z", "p"]]

  const TiedCandidates: seq<Candidate> :=
    [Candidate(["p"], 1.25, [50.0]), Candidate(["x", "p"], 2.5, [50.0, 90.0]),
     Candidate(["y", "p"], 1.0, [50.0, 20.0]), Candidate(["z", "p"], 2.5, [50.0, 40.0])]

  lemma {:induction false} TiedOneHop()
    ensures var reading := Read(TiedSource(), 0, ["t"] + ["p"]);
            reading.Pools? && CandidateOf(["p"], reading.pools) == TiedCandidates[0]
  {
    var pool: DeepPool := (20.0, 25.0);
    ReadsOneHop(TiedSource(), 0, "t", "p", pool);
    OneHopCandidate(["p"], pool);
  }

  lemma {:induction false} TiedTwoHops(via: string, k: nat)
    requires (via, k) in {("x", 1), ("y", 2), ("z", 3)}
    ensures var reading := Read(TiedSource(), 0, ["t"] + [via, "p"]);
            reading.Pools? && CandidateOf([via, "p"], reading.pools) == TiedCandidates[k]
  {
    var p: DeepPool := if via == "y" then (25.0, 25.0) else (10.0, 25.0);
    var q: DeepPool := if via == "x" then (45.0, 45.0) else if via == "y" then (10.0, 10.0) else (20.0, 20.0);
    ReadsTwoHops(TiedSource(), 0, "t", via, "p", p, q);
    TwoHopCandidate([via, "p"], p, q);
  }

  /** The priced routes of the token `t`, for the first `n` of its routes. */
  lemma {:induction false} TiedPriced(n: nat)
    requires n <= 4
    ensures RoutesByHops(TiedRoutes[..n])
    ensures PricedRoutes(TiedSource(), 0, "t", TiedRoutes[..n]) == TiedCandidates[..n]
  {
    if n > 0 {
      TiedPriced(n - 1);
      var routes := TiedRoutes[..n];
      assert routes[..n - 1] == TiedRoutes[..n - 1] && routes[n - 1] == TiedRoutes[n - 1];
      assert TiedCandidates[..n] == TiedCandidates[..n - 1] + [TiedCandidates[n - 1]];
      if n == 1 { TiedOneHop(); } else { TiedTwoHops(TiedRoutes[n - 1][0], n - 1); }
    }
  }

  lemma {:induction false} TiedByHops()
    ensures |TiedCandidates| == 4 && forall n :: 0 <= n <= 4 ==> ByHops(TiedCandidates[..n])
  {
  }

  /** The tails that the comparisons look at. */
  lemma {:induction false} TiedTails()
    ensures var cs := TiedCandidates;
            && cs[0].liquidities[1..] == [] && cs[1].liquidities[1..] == [90.0]
            && cs[2].liquidities[1..] == [20.0] && cs[3].liquidities[1..] == [40.0]
  {
  }

  lemma {:induction false} TiedFirstChoices()
    ensures |TiedCandidates| == 4 && ByHops(TiedCandidates[..2]) && ByHops(TiedCandidates[..3])
    ensures Choose(TiedCandidates[..2]) == TiedCandidates[0]
    ensures Choose(TiedCandidates[..3]) == TiedCandidates[2]
  {
    var cs := TiedCandidates;
    TiedTails();
    TiedByHops();
    assert cs[..2][..1] == [cs[0]] && cs[..3][..2] == cs[..2];
    assert Choose([cs[0]]) == cs[0];
    assert Choose(cs[..2]) == Next(cs[0], cs[1]);
    assert Choose(cs[..3]) == Next(cs[0], cs[2]);
  }

  lemma {:induction false} TiedChoices()
    ensures |TiedCandidates| == 4 && forall n :: 0 <= n <= 4 ==> ByHops(TiedCandidates[..n])
    ensures Choose(TiedCandidates[..2]) == TiedCandidates[0]
    ensures Choose(TiedCandidates[..3]) == TiedCandidates[2]
    ensures Choose(TiedCandidates[..4]) == TiedCandidates[3]
  {
    var cs := TiedCandidates;
    TiedTails();
    TiedByHops();
    TiedFirstChoices();
    assert cs[..4][..3] == cs[..3];
    assert Compare([40.0], [20.0]) == 1;
    assert Choose(cs[..4]) == Next(cs[2], cs[3]);
  }

  /** With mixed lengths the chosen route may lose to one of its own length: the route through
      `y` takes over by price and beats the direct one, not the one through `x`. */
  lemma {:induction false} MixedLengthsMayMiss()
    ensures var cs := PricedRoutes(TiedSource(), 0, "t", TiedRoutes[..3]);
            && RoutesByHops(TiedRoutes[..3]) && ByHops(cs) && |cs| == 3
            && Choose(cs) == cs[2] && |cs[1].liquidities| == |cs[2].liquidities| && Beats(cs[1], cs[2])
  {
    TiedPriced(3);
    TiedChoices();
    assert TiedCandidates[1].liquidities[1..] == [90.0] && TiedCandidates[2].liquidities[1..] == [20.0];
  }

  /** A later change of the choice need not repair that: the last change, to the route through
      `z`, overtakes nothing, yet the one through `x` still beats it. */
  lemma {:induction false} LaterChangeMayNotRepair()
    ensures var cs := PricedRoutes(TiedSource(), 0, "t", TiedRoutes);
            && RoutesByHops(TiedRoutes) && |cs| == 4 && ByHops(cs) && ByHops(cs[..3])
            && Choose(cs) == cs[3] != Choose(cs[..3]) && !OvertakesBetter(Choose(cs[..3]), cs[3], cs[..3])
            && !Leads(Choose(cs), cs)
  {
    TiedPriced(4);
    TiedChoices();
    assert TiedRoutes[..4] == TiedRoutes && TiedCandidates[..4] == TiedCandidates;
    assert TiedCandidates[1].liquidities[1..] == [90.0] && TiedCandidates[3].liquidities[1..] == [40.0];
    assert TiedCandidates[1] in TiedCandidates && Beats(TiedCandidates[1], TiedCandidates[3]);
  }

  /** What the price worker stores and looks up. */
  class PriceImpl {
    const source: Source
    const priceToken: string
    var tokenDecimals: map<string, nat>
    var priceRoutes: map<string, seq<seq<string>>>

    constructor (source: Source, priceToken: string)
      requires source.decimals(priceToken).Some?
      ensures Valid() && this.source == source && this.priceToken == priceToken
      ensures priceRoutes == map[]
    {
      this.source, this.priceToken := source, priceToken;
      tokenDecimals := map[priceToken := source.decimals(priceToken).value];
      priceRoutes := map[];
    }

    /** The cache holds the tokens' decimals, and the routes end in the price token. */
    ghost predicate Valid()
      reads this
    {
      && priceToken in tokenDecimals
      && (forall t :: t in tokenDecimals ==> source.decimals(t) == Some(tokenDecimals[t]))
      && (forall t :: t in priceRoutes ==> RoutesByHops(priceRoutes[t]))
      && (forall t, r :: t in priceRoutes && r in priceRoutes[t] ==> r[|r| - 1] == priceToken)
    }

    ghost function RoutesFor(token: string): seq<seq<string>>
      reads this`priceRoutes
    {
      if token in priceRoutes then priceRoutes[token] else []
    }

    method Decimals(token: string) returns (res: Attempt<nat>)
      requires Valid()
      modifies this`tokenDecimals
      ensures Valid()
      ensures res == if source.decimals(token).Some? then Ok(source.decimals(token).value) else Err
    {
      if token in tokenDecimals { return Ok(tokenDecimals[token]); }
      var decimals := source.decimals(token);
      if decimals.None? { return Err; }
      tokenDecimals := tokenDecimals[token := decimals.value];
      return Ok(decimals.value);
    }

    /** The token a hop starts from, with its decimals. */
    method HopStart(token: string, decimals: nat, route: seq<string>, i: nat, ghost path: seq<string>)
      returns (res: Attempt<(string, nat)>)
      requires Valid() && i < |route| && source.decimals(token) == Some(decimals)
      requires path == [token] + route
      modifies this`tokenDecimals
      ensures Valid()
      ensures res == if source.decimals(path[i]).Some? then Ok((path[i], source.decimals(path[i]).value)) else Err
    {
      if i == 0 { return Ok((token, decimals)); }
      var found := Decimals(route[i - 1]);
      if found.Err? { return Err; }
      return Ok((route[i - 1], found.value));
    }

    /** The two sides of the pool of a hop, and the decimals of the token it starts from. */
    method ReadPool(height: nat, token: string, decimals: nat, route: seq<string>, i: nat, decimals1: nat,
                    ghost path: seq<string>)
      returns (res: Attempt<(real, real, nat)>)
      requires Valid() && i < |route| && path == [token] + route
      requires source.decimals(token) == Some(decimals) && source.decimals(path[i + 1]) == Some(decimals1)
      modifies this`tokenDecimals
      ensures Valid()
      ensures var pool := Pool(source, height, path[i], path[i + 1]);
              if pool.None? then res == Err
              else res.Ok? && pool.value == (res.value.0, res.value.1) && source.decimals(path[i]) == Some(res.value.2)
    {
      var asset0 := HopStart(token, decimals, route, i, path);
      if asset0.Err? { return Err; }
      var amounts := source.liquidity(height, asset0.value.0, route[i]);
      if amounts.None? { return Err; }
      return Ok((Scaled(amounts.value.0, asset0.value.1), Scaled(amounts.value.1, decimals1), asset0.value.1));
    }

    /** One turn of the loop: one more hop in front, nothing for a pool below the threshold. */
    method TakeHop(height: nat, token: string, decimals: nat, route: seq<string>, i: nat, decimals1: nat, price: real,
                   liquidities: seq<real>, ghost path: seq<string>, ghost pools: seq<DeepPool>)
      returns (res: Attempt<Option<(real, seq<real>, nat)>>)
      requires Valid() && i < |route| && path == [token] + route
      requires source.decimals(token) == Some(decimals) && source.decimals(path[i + 1]) == Some(decimals1)
      requires Read(source, height, path[i + 1..]) == Pools(pools)
      requires price == PriceOf(pools) && liquidities == LiquiditiesOf(pools)
      modifies this`tokenDecimals
      ensures Valid()
      ensures res.Err? ==> Read(source, height, path) == Failed
      ensures res == Ok(None) ==> Read(source, height, path) == Thin
      ensures res.Ok? && res.value.Some? ==>
                var reading, taken := Read(source, height, path[i..]), res.value.value;
                && reading.Pools? && source.decimals(path[i]) == Some(taken.2)
                && taken.0 == PriceOf(reading.pools) && taken.1 == LiquiditiesOf(reading.pools)
    {
      HopStep(source, height, path, i, pools);
      var read := ReadPool(height, token, decimals, route, i, decimals1, path);
      if read.Err? { return Err; }
      var (liquidity0, liquidity1, decimals0) := read.value;
      if liquidity0 < LIQUIDITY_LOWER_THRESHOLD || liquidity1 < LIQUIDITY_LOWER_THRESHOLD {
        return Ok(None);
      }
      var pool: DeepPool := (liquidity0, liquidity1);
      PoolInFront(pool, pools);
      return Ok(Some((Ratio(pool) * price, [Worth(liquidity1, price)] + liquidities, decimals0)));
    }

    /** The loop from the end of the route; a zero price without liquidities stands for a
        pool below the threshold. */
    method CalculateRoutePrice(height: nat, route: seq<string>, token: string, decimals: nat)
      returns (res: Attempt<(real, seq<real>)>)
      requires Valid() && route != [] && route[|route| - 1] == priceToken
      requires source.decimals(token) == Some(decimals)
      modifies this`tokenDecimals
      ensures Valid()
      ensures res == match Read(source, height, [token] + route)
                     case Failed => Err
                     case Thin => Ok((0.0, []))
                     case Pools(pools) => Ok((PriceOf(pools), LiquiditiesOf(pools)))
    {
      ghost var path := [token] + route;
      ghost var pools: seq<DeepPool> := [];
      var liquidities: seq<real> := [];
      var price := 1.0;
      var decimals1 := tokenDecimals[priceToken];
      var i: int := |route| - 1;
      while i > -1
        invariant -1 <= i < |route|
        invariant Valid()
        invariant source.decimals(path[i + 1]) == Some(decimals1)
        invariant Read(source, height, path[i + 1..]) == Pools(pools)
        invariant price == PriceOf(pools) && liquidities == LiquiditiesOf(pools)
      {
        var hop := TakeHop(height, token, decimals, route, i, decimals1, price, liquidities, path, pools);
        if hop.Err? { return Err; }
        if hop.value.None? { return Ok((0.0, [])); }
        price, liquidities, decimals1 := hop.value.value.0, hop.value.value.1, hop.value.value.2;
        pools := Read(source, height, path[i..]).pools;
        i := i - 1;
      }
      assert path[0..] == path;
      return Ok((price, liquidities));
    }

    /** The best of the token's routes: an error exactly when one of them cannot be read,
        nothing when none is priced, else the choice of the pass over the priced ones. */
    method OptimalRoutePrice(height: nat, token: string, decimals: nat)
      returns (res: Attempt<Option<(Candidate, real)>>)
      requires Valid() && source.decimals(token) == Some(decimals)
      modifies this`tokenDecimals
      ensures Valid()
      ensures res.Err? <==> exists r :: r in RoutesFor(token) && Read(source, height, [token] + r).Failed?
      ensures ByHops(PricedRoutes(source, height, token, RoutesFor(token)))
      ensures res.Ok? ==> IsChoice(res.value, PricedRoutes(source, height, token, RoutesFor(token)))
    {
      if token !in priceRoutes { return Ok(None); }
      res := ChooseAmong(height, token, decimals, priceRoutes[token]);
    }

    /** The loop over the routes of a token. */
    method ChooseAmong(height: nat, token: string, decimals: nat, routes: seq<seq<string>>)
      returns (res: Attempt<Option<(Candidate, real)>>)
      requires Valid() && source.decimals(token) == Some(decimals) && RoutesByHops(routes)
      requires forall r :: r in routes ==> r[|r| - 1] == priceToken
      modifies this`tokenDecimals
      ensures Valid()
      ensures res.Err? <==> exists r :: r in routes && Read(source, height, [token] + r).Failed?
      ensures ByHops(PricedRoutes(source, height, token, routes))
      ensures res.Ok? ==> IsChoice(res.value, PricedRoutes(source, height, token, routes))
    {
      PricedRoutesByHops(source, height, token, routes);
      var best: Option<Candidate> := None;
      var bestLiquidity := 0.0;
      ghost var cs: seq<Candidate> := [];
      for n := 0 to |routes|
        invariant Valid()
        invariant cs == PricedRoutes(source, height, token, routes[..n])
        invariant forall j :: 0 <= j < n ==> !Read(source, height, [token] + routes[j]).Failed?
        invariant ByHops(cs) && Best(cs, best, bestLiquidity)
      {
        OneMore(source, height, token, routes, n, cs);
        assert routes[n] in routes;
        var tried := TryRoute(height, token, decimals, routes[n], best, bestLiquidity, cs);
        if tried.Err? { return Err; }
        best, bestLiquidity := tried.value.0, tried.value.1;
        cs := PricedRoutes(source, height, token, routes[..n + 1]);
      }
      assert routes[..|routes|] == routes;
      if best == None { return Ok(None); }
      return Ok(Some((best.value, bestLiquidity)));
    }

    /** One round: a route that is not priced changes nothing, the first priced one is the
        best, a later one has to beat it. */
    method TryRoute(height: nat, token: string, decimals: nat, route: seq<string>, best: Option<Candidate>,
                    bestLiquidity: real, ghost cs: seq<Candidate>)
      returns (res: Attempt<(Option<Candidate>, real)>)
      requires Valid() && route != [] && route[|route| - 1] == priceToken
      requires source.decimals(token) == Some(decimals)
      requires ByHops(cs) && Best(cs, best, bestLiquidity)
      requires var reading := Read(source, height, [token] + route);
               reading.Pools? ==> Extends(cs, CandidateOf(route, reading.pools))
      modifies this`tokenDecimals
      ensures Valid()
      ensures var reading := Read(source, height, [token] + route);
              && (res.Err? <==> reading.Failed?)
              && (reading.Thin? ==> res == Ok((best, bestLiquidity)))
              && (reading.Pools? ==>
                    var c := CandidateOf(route, reading.pools);
                    ByHops(cs + [c]) && Best(cs + [c], res.value.0, res.value.1))
    {
      var q := CalculateRoutePrice(height, route, token, decimals);
      if q.Err? { return Err; }
      if q.value.0 == 0.0 { return Ok((best, bestLiquidity)); }
      var c := Candidate(route, q.value.0, q.value.1);
      if best == None { return Ok((Some(c), c.liquidities[0])); }
      var winner, liquidity := Challenge(c, best.value, bestLiquidity);
      return Ok((winner, liquidity));
    }

    /** The comparison of one candidate with the best: the first difference decides, and the
        price when there is none. */
    method Challenge(c: Candidate, best: Candidate, bestLiquidity: real)
        returns (winner: Option<Candidate>, liquidity: real)
      requires |c.liquidities| >= |best.liquidities| > 0
      requires bestLiquidity == best.liquidities[0]
      ensures winner == Some(Next(best, c)) && liquidity == Next(best, c).liquidities[0]
    {
      var tmp := if |c.liquidities| == |best.liquidities| then c.liquidities else c.liquidities[..|best.liquidities|];
      for i := 0 to |tmp|
        invariant Compare(c.liquidities, best.liquidities) == Compare(c.liquidities[i..], best.liquidities[i..])
        invariant i > 0 ==> c.liquidities[0] == best.liquidities[0]
      {
        if tmp[i] > best.liquidities[i] {
          return Some(c), c.liquidities[0];
        } else if tmp[i] < best.liquidities[i] {
          return Some(best), bestLiquidity;
        }
      }
      if c.price < best.price { return Some(c), bestLiquidity; }
      return Some(best), bestLiquidity;
    }
  }

  lemma {:induction false} PoolInFront(pool: DeepPool, pools: seq<DeepPool>)
    ensures PriceOf([pool] + pools) == Ratio(pool) * PriceOf(pools)
    ensures LiquiditiesOf([pool] + pools) == [Worth(pool.1, PriceOf(pools))] + LiquiditiesOf(pools)
  {
    assert ([pool] + pools)[1..] == pools;
  }

  /** One more hop at the front of a priced suffix. */
  lemma {:induction false} HopStep(source: Source, height: nat, path: seq<string>, i: nat, pools: seq<DeepPool>)
    requires i + 1 < |path| && Read(source, height, path[i + 1..]) == Pools(pools)
    ensures var pool := Pool(source, height, path[i], path[i + 1]);
            if pool.None? then Read(source, height, path) == Failed
            else if !Deep(pool.value) then Read(source, height, path) == Thin
            else Read(source, height, path[i..]) == Pools([pool.value] + pools)
  {
    assert path[i..][1..] == path[i + 1..];
    if !Read(source, height, path[i..]).Pools? { FailsFrom(source, height, path, i); }
  }

  /** What is not priced at a suffix is not priced, for the same reason, on the whole path. */
  lemma {:induction false} FailsFrom(source: Source, height: nat, path: seq<string>, i: nat)
    requires i < |path| && !Read(source, height, path[i..]).Pools?
    ensures Read(source, height, path) == Read(source, height, path[i..])
  {
    if i == 0 {
      assert path[0..] == path;
    } else {
      assert path[1..][i - 1..] == path[i..];
      FailsFrom(source, height, path[1..], i - 1);
    }
  }

  /** What the next route adds to the priced ones, and to the choice among them. */
  lemma {:induction false} OneMore(source: Source, height: nat, token: string, routes: seq<seq<string>>, n: nat,
                                   before: seq<Candidate>)
    requires RoutesByHops(routes) && n < |routes| && ByHops(before)
    requires before == PricedRoutes(source, height, token, routes[..n])
    ensures var reading := Read(source, height, [token] + routes[n]);
            var after := PricedRoutes(source, height, token, routes[..n + 1]);
            && (!reading.Pools? ==> after == before)
            && (reading.Pools? ==>
                  var c := CandidateOf(routes[n], reading.pools);
                  after == before + [c] && ByHops(after) && Extends(before, c))
  {
    var upTo := routes[..n + 1];
    assert upTo[..|upTo| - 1] == routes[..n] && upTo[|upTo| - 1] == routes[n];
    RoutesPrefix(routes, n + 1);
    PricedRoutesByHops(source, height, token, upTo);
    var reading := Read(source, height, [token] + routes[n]);
    if reading.Pools? { ChooseGrows(before, CandidateOf(routes[n], reading.pools)); }
  }

  /** The running choice, and its first-hop liquidity. */
  ghost predicate Best(cs: seq<Candidate>, best: Option<Candidate>, bestLiquidity: real)
    requires ByHops(cs)
  {
    if cs == [] then best == None else best == Some(Choose(cs)) && bestLiquidity == Choose(cs).liquidities[0]
  }

  /** The result for a list of priced routes: the choice with its first-hop liquidity. */
  ghost predicate IsChoice(choice: Option<(Candidate, real)>, cs: seq<Candidate>)
    requires ByHops(cs)
  {
    if cs == [] then choice == None else choice == Some((Choose(cs), Choose(cs).liquidities[0]))
  }

  ghost predicate Extends(cs: seq<Candidate>, c: Candidate) {
    && ByHops(cs) && ByHops(cs + [c])
    && |c.liquidities| > 0
    && (cs == [] ==> Choose(cs + [c]) == c)
    && (cs != [] ==>
          && |c.liquidities| >= |Choose(cs).liquidities| > 0
          && Choose(cs + [c]) == Next(Choose(cs), c))
  }

  lemma ChooseGrows(cs: seq<Candidate>, c: Candidate)
    requires ByHops(cs) && ByHops(cs + [c])
    ensures Extends(cs, c)
  {
    var all := cs + [c];
    assert all[..|all| - 1] == cs && all[|all| - 1] == c;
    if cs != [] {
      var i :| 0 <= i < |cs| && cs[i] == Choose(cs);
      assert all[i] == cs[i];
    }
    assert c in all;
  }

  /** A stored route; rows come ordered by hop count. */
  datatype RouteRow = RouteRow(asset0: string, hopCount: nat, route: seq<string>)

  function RoutesOf(rows: seq<RouteRow>, token: string): (routes: seq<seq<string>>)
  {
    if rows == [] then []
    else
      var last := rows[|rows| - 1];
      RoutesOf(rows[..|rows| - 1], token) + if last.asset0 == token then [last.route] else []
  }

  /** The routes of a token are those of its rows, in the order of the rows. */
  lemma {:induction false} RoutesOfAre(rows: seq<RouteRow>, token: string) returns (places: seq<nat>)
    ensures |places| == |RoutesOf(rows, token)|
    ensures forall k :: 0 <= k < |places| ==>
              places[k] < |rows| && rows[places[k]].asset0 == token && RoutesOf(rows, token)[k] == rows[places[k]].route
    ensures forall k, l :: 0 <= k < l < |places| ==> places[k] < places[l]
    ensures forall i :: 0 <= i < |rows| && rows[i].asset0 == token ==> i in places
  {
    if rows == [] {
      places := [];
    } else {
      var n := |rows| - 1;
      var before := RoutesOfAre(rows[..n], token);
      places := before + if rows[n].asset0 == token then [n] else [];
      forall i | 0 <= i < |rows| && rows[i].asset0 == token ensures i in places {
        if i < n { assert rows[..n][i] == rows[i] && i in before; } else { assert places[|before|] == n; }
      }
    }
  }

  ghost predicate RowsByHops(rows: seq<RouteRow>) {
    && (forall r :: r in rows ==> |r.route| == r.hopCount + 1)
    && (forall i, j :: 0 <= i < j < |rows| ==> rows[i].hopCount <= rows[j].hopCount)
  }

  lemma {:induction false} RoutesOfByHops(rows: seq<RouteRow>, token: string)
    requires RowsByHops(rows)
    ensures RoutesByHops(RoutesOf(rows, token))
    ensures rows != [] ==> forall r :: r in RoutesOf(rows, token) ==> |r| <= |rows[|rows| - 1].route|
  {
    if rows != [] {
      var n := |rows| - 1;
      RoutesOfByHops(rows[..n], token);
      assert rows[n] in rows;
      if n > 0 { assert rows[n - 1].hopCount <= rows[n].hopCount && rows[n - 1] in rows; }
    }
  }

  /** The routes of every token in the order of the rows, so by hop count: what the
      truncation in the comparison relies on. */
  method Route(rows: seq<RouteRow>) returns (routes: map<string, seq<seq<string>>>)
    requires RowsByHops(rows)
    ensures forall t :: t in routes <==> RoutesOf(rows, t) != []
    ensures forall t :: t in routes ==> routes[t] == RoutesOf(rows, t) && RoutesByHops(routes[t])
  {
    routes := map[];
    for n := 0 to |rows|
      invariant forall t :: t in routes <==> RoutesOf(rows[..n], t) != []
      invariant forall t :: t in routes ==> routes[t] == RoutesOf(rows[..n], t)
    {
      var row := rows[n];
      RoutesGrow(rows, n);
      if row.asset0 !in routes { routes := routes[row.asset0 := []]; }
      routes := routes[row.asset0 := routes[row.asset0] + [row.route]];
    }
    assert rows[..|rows|] == rows;
    forall t
      ensures RoutesByHops(RoutesOf(rows, t))
    {
      RoutesOfByHops(rows, t);
    }
  }

  lemma RoutesGrow(rows: seq<RouteRow>, n: nat)
    requires n < |rows|
    ensures forall t ::
      RoutesOf(rows[..n + 1], t) == RoutesOf(rows[..n], t) + if rows[n].asset0 == t then [rows[n].route] else []
  {
    var upTo := rows[..n + 1];
    assert upTo[..|upTo| - 1] == rows[..n] && upTo[|upTo| - 1] == rows[n];
  }
}
