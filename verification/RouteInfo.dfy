/** The route cache: token indexing, the pair graph and the bounded depth-first search
    over it (pkg/dex/router/route_info.go). */
module Routing {
  import opened Options
  import opened Orders
  import opened Graph
  import opened RouteTable

  datatype Pair = Pair(contract: string, assetInfos: seq<string>)

  const MAX_ROUTE_HOP_COUNT: nat := 4

  type Rows = map<nat, map<nat, string>>

  /** Every pair names its two assets; the code reads the first two entries. */
  predicate WellFormed(pairs: seq<Pair>) {
    forall p :: p in pairs ==> |p.assetInfos| >= 2
  }

  // ---- what the index and the pair map should be ----

  function AddTokens(order: seq<string>, tokens: seq<string>): seq<string> {
    if tokens == [] then order else
      var o := AddTokens(order, tokens[..|tokens| - 1]);
      var t := tokens[|tokens| - 1];
      if t in o then o else o + [t]
  }

  /** The tokens in the order in which the pair list first mentions them. */
  function TokenOrder(pairs: seq<Pair>): seq<string> {
    if pairs == [] then [] else
      AddTokens(TokenOrder(pairs[..|pairs| - 1]), pairs[|pairs| - 1].assetInfos)
  }

  /** The pair graph: each pair is an edge in both directions. */
  ghost function TokenEdges(pairs: seq<Pair>): set<(string, string)>
    requires WellFormed(pairs)
  {
    (set p | p in pairs :: (p.assetInfos[0], p.assetInfos[1])) +
    (set p | p in pairs :: (p.assetInfos[1], p.assetInfos[0]))
  }

  predicate Joins(p: Pair, a: string, b: string)
    requires |p.assetInfos| >= 2
  {
    (p.assetInfos[0] == a && p.assetInfos[1] == b) || (p.assetInfos[0] == b && p.assetInfos[1] == a)
  }

  /** The contract of the last listed pair between two tokens. */
  function LastContract(pairs: seq<Pair>, a: string, b: string): (r: Option<string>)
    requires WellFormed(pairs)
    ensures r.Some? <==> (a, b) in TokenEdges(pairs)
  {
    if pairs == [] then None else
      var n := |pairs| - 1;
      assert forall p :: p in pairs <==> p in pairs[..n] || p == pairs[n];
      if Joins(pairs[n], a, b) then Some(pairs[n].contract) else LastContract(pairs[..n], a, b)
  }

  /** It is the contract of a pair of the two tokens that no later pair joins again. */
  lemma {:induction false} LastContractIsLast(pairs: seq<Pair>, a: string, b: string) returns (n: nat)
    requires WellFormed(pairs) && LastContract(pairs, a, b).Some?
    ensures n < |pairs| && pairs[n].contract == LastContract(pairs, a, b).value
    ensures (pairs[n].assetInfos[0] == a && pairs[n].assetInfos[1] == b) ||
            (pairs[n].assetInfos[0] == b && pairs[n].assetInfos[1] == a)
    ensures forall m :: n < m < |pairs| ==>
              && !(pairs[m].assetInfos[0] == a && pairs[m].assetInfos[1] == b)
              && !(pairs[m].assetInfos[0] == b && pairs[m].assetInfos[1] == a)
  {
    var last := |pairs| - 1;
    if Joins(pairs[last], a, b) {
      n := last;
    } else {
      n := LastContractIsLast(pairs[..last], a, b);
      assert pairs[..last][n] == pairs[n];
      assert forall m :: n < m < last ==> pairs[..last][m] == pairs[m];
    }
  }

  lemma {:induction false} AddTokensFacts(order: seq<string>, tokens: seq<string>)
    requires Distinct(order)
    ensures Distinct(AddTokens(order, tokens))
    ensures order <= AddTokens(order, tokens)
    ensures forall t :: t in AddTokens(order, tokens) <==> t in order || t in tokens
  {
    if tokens != [] {
      AddTokensFacts(order, tokens[..|tokens| - 1]);
      assert tokens == tokens[..|tokens| - 1] + [tokens[|tokens| - 1]];
    }
  }

  /** The first mention of a token: no pair before mentions it, nor an earlier place of its pair. */
  ghost predicate FirstMention(pairs: seq<Pair>, t: string, n: nat, m: nat) {
    && n < |pairs| && m < |pairs[n].assetInfos| && pairs[n].assetInfos[m] == t
    && (forall k :: 0 <= k < n ==> t !in pairs[k].assetInfos)
    && t !in pairs[n].assetInfos[..m]
  }

  /** One token is mentioned before the other. */
  ghost predicate MentionedBefore(pairs: seq<Pair>, a: string, b: string) {
    exists n, m, k, l :: FirstMention(pairs, a, n, m) && FirstMention(pairs, b, k, l) && (n < k || (n == k && m < l))
  }

  lemma {:induction false} AddedInOrder(order: seq<string>, tokens: seq<string>, i: nat) returns (m: nat)
    requires Distinct(order) && |order| <= i < |AddTokens(order, tokens)|
    ensures m < |tokens| && tokens[m] == AddTokens(order, tokens)[i] && tokens[m] !in tokens[..m]
    ensures tokens[m] !in order
    ensures i == |AddTokens(order, tokens[..m])|
  {
    var n := |tokens| - 1;
    var before := AddTokens(order, tokens[..n]);
    AddTokensFacts(order, tokens[..n]);
    if i < |before| {
      m := AddedInOrder(order, tokens[..n], i);
      assert tokens[..n][..m] == tokens[..m];
    } else {
      m := n;
    }
  }

  /** A token's place in the order is that of its first mention. */
  lemma {:induction false} PlaceIsFirstMention(pairs: seq<Pair>, i: nat) returns (n: nat, m: nat)
    requires i < |TokenOrder(pairs)|
    ensures FirstMention(pairs, TokenOrder(pairs)[i], n, m)
    ensures |TokenOrder(pairs[..n])| <= i && i == |AddTokens(TokenOrder(pairs[..n]), pairs[n].assetInfos[..m])|
  {
    var last := |pairs| - 1;
    var before := TokenOrder(pairs[..last]);
    TokenOrderFacts(pairs[..last]);
    AddTokensFacts(before, pairs[last].assetInfos);
    if i < |before| {
      n, m := PlaceIsFirstMention(pairs[..last], i);
      assert pairs[..last][..n] == pairs[..n];
    } else {
      n := last;
      m := AddedInOrder(before, pairs[last].assetInfos, i);
      forall k | 0 <= k < n ensures TokenOrder(pairs)[i] !in pairs[k].assetInfos {
        assert pairs[..last][k] in pairs[..last];
      }
    }
  }

  lemma {:induction false} OrderGrows(pairs: seq<Pair>, n: nat, k: nat)
    requires n <= k <= |pairs|
    ensures |TokenOrder(pairs[..n])| <= |TokenOrder(pairs[..k])|
    decreases k
  {
    if n < k {
      OrderGrows(pairs, n, k - 1);
      TokenOrderFacts(pairs[..k - 1]);
      assert pairs[..k][..k - 1] == pairs[..k - 1];
      AddTokensFacts(TokenOrder(pairs[..k - 1]), pairs[k - 1].assetInfos);
    }
  }

  lemma {:induction false} AddedGrows(order: seq<string>, tokens: seq<string>, m: nat)
    requires Distinct(order) && m <= |tokens|
    ensures |AddTokens(order, tokens[..m])| <= |AddTokens(order, tokens)|
    decreases |tokens|
  {
    if m < |tokens| {
      var n := |tokens| - 1;
      AddedGrows(order, tokens[..n], m);
      assert tokens[..n][..m] == tokens[..m];
    } else {
      assert tokens[..m] == tokens;
    }
  }

  /** Smaller places are earlier first mentions. */
  lemma {:induction false} OrderIsMention(pairs: seq<Pair>, i: nat, j: nat)
    requires i < j < |TokenOrder(pairs)|
    ensures MentionedBefore(pairs, TokenOrder(pairs)[i], TokenOrder(pairs)[j])
  {
    var n, m := PlaceIsFirstMention(pairs, i);
    var k, l := PlaceIsFirstMention(pairs, j);
    if k < n {
      OrderGrows(pairs, k + 1, n);
      assert pairs[..k + 1][..k] == pairs[..k];
      TokenOrderFacts(pairs[..k]);
      AddedGrows(TokenOrder(pairs[..k]), pairs[k].assetInfos, l);
    } else if k == n && l < m {
      TokenOrderFacts(pairs[..n]);
      assert pairs[n].assetInfos[..m][..l] == pairs[n].assetInfos[..l];
      AddedGrows(TokenOrder(pairs[..n]), pairs[n].assetInfos[..m], l);
    }
  }

  lemma {:induction false} TokenOrderFacts(pairs: seq<Pair>)
    ensures Distinct(TokenOrder(pairs))
    ensures forall t :: t in TokenOrder(pairs) <==> exists p :: p in pairs && t in p.assetInfos
  {
    if pairs != [] {
      var n := |pairs| - 1;
      TokenOrderFacts(pairs[..n]);
      AddTokensFacts(TokenOrder(pairs[..n]), pairs[n].assetInfos);
      assert pairs == pairs[..n] + [pairs[n]];
    }
  }

  function Row(rows: Rows, i: nat): map<nat, string> {
    if i in rows then rows[i] else map[]
  }

  predicate HasPair(rows: Rows, i: nat, j: nat) {
    i in rows && j in rows[i]
  }

  ghost function IndexEdges(rows: Rows): set<(nat, nat)> {
    set i, j | i in rows && j in rows[i] :: (i, j)
  }

  /** The two maps are inverse and number the tokens by their place in `order`. */
  ghost predicate IndexFor(toAsset: map<nat, string>, toIndex: map<string, nat>, order: seq<string>) {
    && (forall i: nat :: i in toAsset <==> i < |order|)
    && (forall t: string :: t in toIndex <==> t in order)
    && (forall i: nat :: i < |order| ==> toAsset[i] == order[i] && toIndex[order[i]] == i)
  }

  lemma IndexStep(toAsset: map<nat, string>, toIndex: map<string, nat>, order: seq<string>, t: string)
    requires IndexFor(toAsset, toIndex, order) && t !in order
    ensures IndexFor(toAsset[|order| := t], toIndex[t := |order|], order + [t])
  {
  }

  /** `rows` is the pair map of `pairs` when tokens are numbered by `order`. */
  ghost predicate PairMapFor(rows: Rows, order: seq<string>, pairs: seq<Pair>)
    requires WellFormed(pairs)
  {
    && (forall i: nat :: i in rows ==> i < |order| && rows[i] != map[])
    && (forall i: nat, j: nat :: HasPair(rows, i, j) ==> i < |order| && j < |order|)
    && (forall i: nat, j: nat :: i < |order| && j < |order| ==>
          LastContract(pairs, order[i], order[j]) ==
          if HasPair(rows, i, j) then Some(rows[i][j]) else None)
  }

  function SetPair(rows: Rows, i: nat, j: nat, contract: string): Rows {
    var row: map<nat, string> := Row(rows, i)[j := contract];
    rows[i := row]
  }

  lemma PairMapStep(rows: Rows, order: seq<string>, pairs: seq<Pair>, from: nat, to: nat)
    requires WellFormed(pairs) && pairs != [] && Distinct(order) && from < |order| && to < |order|
    requires PairMapFor(rows, order, pairs[..|pairs| - 1])
    requires var p := pairs[|pairs| - 1]; p.assetInfos[0] == order[from] && p.assetInfos[1] == order[to]
    ensures var c := pairs[|pairs| - 1].contract;
            PairMapFor(SetPair(SetPair(rows, from, to, c), to, from, c), order, pairs)
  {
    var p := pairs[|pairs| - 1];
    var c := p.contract;
    var mid := SetPair(rows, from, to, c);
    var next := SetPair(mid, to, from, c);
    assert forall i: nat, j: nat :: HasPair(mid, i, j) <==> HasPair(rows, i, j) || (i == from && j == to);
    assert forall i: nat, j: nat :: HasPair(next, i, j) <==> HasPair(mid, i, j) || (i == to && j == from);
    forall i: nat, j: nat | i < |order| && j < |order|
      ensures LastContract(pairs, order[i], order[j]) == if HasPair(next, i, j) then Some(next[i][j]) else None
    {
      assert Joins(p, order[i], order[j]) <==> (i == from && j == to) || (i == to && j == from);
      assert LastContract(pairs[..|pairs| - 1], order[i], order[j]) ==
             if HasPair(rows, i, j) then Some(rows[i][j]) else None;
    }
    assert from in next[to] && to in next[from];
  }

  lemma PairMapSymmetric(rows: Rows, order: seq<string>, pairs: seq<Pair>)
    requires WellFormed(pairs) && PairMapFor(rows, order, pairs)
    ensures forall i: nat, j: nat :: HasPair(rows, i, j) ==> HasPair(rows, j, i)
    ensures Symmetric(IndexEdges(rows))
  {
    forall i: nat, j: nat | HasPair(rows, i, j) ensures HasPair(rows, j, i) {
      assert LastContract(pairs, order[i], order[j]).Some?;
      assert (order[j], order[i]) in TokenEdges(pairs);
      assert LastContract(pairs, order[j], order[i]).Some?;
    }
    forall e | e in IndexEdges(rows) ensures (e.1, e.0) in IndexEdges(rows) {
      assert HasPair(rows, e.0, e.1) && HasPair(rows, e.1, e.0);
    }
  }

  // ---- the route lists ----

  function Append(routes: Routes, s: nat, d: nat, r: seq<nat>): Routes
    requires s in routes
  {
    var lists: map<nat, seq<seq<nat>>> := routes[s][d := ListOf(routes, s, d) + [r]];
    routes[s := lists]
  }

  /** How often the list from `s` to `d` holds `r`. */
  ghost function Count(routes: Routes, s: nat, d: nat, r: seq<nat>): nat {
    multiset(ListOf(routes, s, d))[r]
  }

  /** The lists from `s` hold exactly the routes of at most `k` edges, each once. */
  ghost predicate ListsExact(routes: Routes, g: set<(nat, nat)>, s: nat, k: nat) {
    forall d: nat, r: seq<nat> :: Count(routes, s, d, r) == (if RouteTo(g, s, d, r, k) then 1 else 0)
  }

  // ---- what one activation of the search adds ----

  /** The routes of at most `k` edges that properly extend `route`. */
  ghost function Extensions(g: set<(nat, nat)>, s: nat, route: seq<nat>, k: nat): iset<seq<nat>> {
    iset r | IsRoute(g, s, r) && |r| <= k && route < r
  }

  /** Those that leave `route` through a node of `via`. */
  ghost function Through(g: set<(nat, nat)>, s: nat, route: seq<nat>, k: nat, via: set<nat>): iset<seq<nat>> {
    iset r | IsRoute(g, s, r) && |r| <= k && route < r && r[|route|] in via
  }

  /** Going from `before` to `after`, the lists from `s` gained exactly `gain`, each once. */
  ghost predicate Gained(before: Routes, after: Routes, s: nat, gain: iset<seq<nat>>) {
    forall d: nat, r: seq<nat> :: Count(after, s, d, r) ==
        Count(before, s, d, r) + (if r in gain && End(s, r) == d then 1 else 0)
  }

  ghost predicate OthersKept(before: Routes, after: Routes, s: nat) {
    after.Keys == before.Keys && forall t :: t in after && t != s ==> after[t] == before[t]
  }

  ghost predicate NoEmptyList(lists: map<nat, seq<seq<nat>>>) {
    forall d :: d in lists ==> lists[d] != []
  }

  /** From `before` to `after` the lists of start `s` gained exactly `gain`, and nothing else changed. */
  ghost predicate Grew(before: Routes, after: Routes, s: nat, gain: iset<seq<nat>>) {
    && s in before && OthersKept(before, after, s)
    && NoEmptyList(after[s])
    && Gained(before, after, s, gain)
  }

  lemma MarkUnmark(marks: map<nat, bool>, v: nat)
    requires v in marks && !marks[v]
    ensures marks[v := true][v := false] == marks
  {
  }

  lemma GainedNothing(a: Routes, s: nat, none: iset<seq<nat>>)
    requires forall r :: r !in none
    ensures Gained(a, a, s, none)
  {
  }

  lemma GainedTrans(a: Routes, b: Routes, c: Routes, s: nat, p: iset<seq<nat>>, q: iset<seq<nat>>)
    requires Gained(a, b, s, p) && Gained(b, c, s, q) && p !! q
    ensures Gained(a, c, s, p + q)
  {
    forall d: nat, r: seq<nat> ensures Count(c, s, d, r) ==
        Count(a, s, d, r) + (if r in p + q && End(s, r) == d then 1 else 0) {
      assert Count(b, s, d, r) == Count(a, s, d, r) + (if r in p && End(s, r) == d then 1 else 0);
    }
  }

  lemma GainedAppend(a: Routes, s: nat, d: nat, r: seq<nat>)
    requires s in a && End(s, r) == d
    ensures Gained(a, Append(a, s, d, r), s, iset{r})
  {
  }

  /** A marked node opens no route; an unmarked one opens the route to it and all that extend it. */
  lemma ThroughStep(g: set<(nat, nat)>, s: nat, route: seq<nat>, k: nat, via: set<nat>, to: nat)
    requires IsRoute(g, s, route) && |route| < k && to !in via && (End(s, route), to) in g
    ensures to == s || to in route ==>
              Through(g, s, route, k, via + {to}) == Through(g, s, route, k, via)
    ensures to != s && to !in route ==>
              && IsRoute(g, s, route + [to])
              && Through(g, s, route, k, via + {to}) ==
                   Through(g, s, route, k, via) + (iset{route + [to]} + Extensions(g, s, route + [to], k))
              && Through(g, s, route, k, via) !! iset{route + [to]} + Extensions(g, s, route + [to], k)
              && iset{route + [to]} !! Extensions(g, s, route + [to], k)
  {
    var n := route + [to];
    var all, some := Through(g, s, route, k, via + {to}), Through(g, s, route, k, via);
    forall r | r in all && r !in some ensures to != s && to !in route && (r == n || n < r) {
      assert r[|route|] == to;
      assert r[..|route|] == route;
      assert n <= r;
      assert forall i :: 0 <= i < |route| ==> route[i] == r[i] && r[i] != r[|route|];
    }
    if to != s && to !in route {
      assert IsRoute(g, s, n) by {
        forall i | 0 <= i < |n| ensures (Prev(s, n, i), n[i]) in g {
          if i < |route| { assert (Prev(s, route, i), route[i]) in g; }
        }
      }
      forall r | r in iset{n} + Extensions(g, s, n, k) ensures r in all && r !in some {
        assert n <= r;
        assert r[|route|] == n[|route|] == to;
      }
    }
  }

  /** One turn of the search loop: append the route to `to`, then everything beyond it. */
  lemma SearchStep(g: set<(nat, nat)>, s: nat, route: seq<nat>, k: nat, via: set<nat>, to: nat,
                   before: Routes, was: Routes, mid: Routes, now: Routes)
    requires IsRoute(g, s, route) && |route| < k && to !in via && (End(s, route), to) in g
    requires to != s && to !in route && s in was
    requires Grew(before, was, s, Through(g, s, route, k, via))
    requires mid == Append(was, s, to, route + [to]) && Grew(mid, now, s, Extensions(g, s, route + [to], k))
    ensures Grew(before, now, s, Through(g, s, route, k, via + {to}))
  {
    var n := route + [to];
    ThroughStep(g, s, route, k, via, to);
    GainedAppend(was, s, to, n);
    GainedTrans(was, Append(was, s, to, n), now, s, iset{n}, Extensions(g, s, n, k));
    GainedTrans(before, was, now, s, Through(g, s, route, k, via), iset{n} + Extensions(g, s, n, k));
  }

  /** Every extension leaves through a neighbour of the last node. */
  lemma ThroughAll(g: set<(nat, nat)>, s: nat, route: seq<nat>, k: nat, via: set<nat>)
    requires forall x :: (End(s, route), x) in g ==> x in via
    ensures Through(g, s, route, k, via) == Extensions(g, s, route, k)
  {
    forall r | r in Extensions(g, s, route, k) ensures r[|route|] in via {
      assert Prev(s, r, |route|) == End(s, route);
      assert (Prev(s, r, |route|), r[|route|]) in g;
    }
  }

  /** The finished cache: a list per start and reachable token, exact and in order. */
  ghost predicate RoutesFor(routes: Routes, rows: Rows, k: nat) {
    && routes.Keys == rows.Keys
    && (forall s :: s in routes ==> ListsExact(routes, IndexEdges(rows), s, k) && SortedLists(routes[s]))
  }

  /** `visited`, a Go map shared by all activations of the search. */
  class Visited {
    var marks: map<nat, bool>

    ghost predicate AllClear(keys: set<nat>)
      reads this
    {
      marks.Keys == keys && forall v :: v in marks ==> !marks[v]
    }

    /** Every key starts unmarked. */
    constructor (keys: set<nat>)
      ensures AllClear(keys)
    {
      marks := map[];
      new;
      var rest := keys;
      while rest != {}
        invariant rest <= keys && AllClear(keys - rest)
        decreases rest
      {
        var key :| key in rest;
        rest := rest - {key};
        marks := marks[key := false];
      }
      assert keys - rest == keys;
    }
  }

  predicate Marked(marks: map<nat, bool>, v: nat) {
    v in marks && marks[v]
  }

  /** There is one first difference. */
  lemma DifferOnce(a: seq<nat>, b: seq<nat>, idx: nat)
    requires |a| == |b| && idx < |a| && a[..idx] == b[..idx] && a[idx] != b[idx]
    ensures forall m :: 0 <= m < |a| && a[..m] == b[..m] && a[m] != b[m] ==> m == idx
  {
    forall m | 0 <= m < idx ensures a[m] == b[m] { assert a[..idx][m] == b[..idx][m]; }
    forall m | idx < m < |a| ensures a[..m] != b[..m] { assert a[..m][idx] == a[idx] && b[..m][idx] == b[idx]; }
  }

  /** The comparator handed to `sort.Slice`: on distinct routes it is the shortlex order. */
  method RouteBefore(a: seq<nat>, b: seq<nat>) returns (before: bool)
    ensures before <==> a == b || ShortlexLess(a, b)
    ensures |a| != |b| ==> (before <==> |a| < |b|)
    ensures |a| == |b| ==> forall m :: 0 <= m < |a| && a[..m] == b[..m] && a[m] != b[m] ==> (before <==> a[m] < b[m])
  {
    if |a| != |b| {
      return |a| < |b|;
    }
    var idx := 0;
    while idx < |a|
      invariant 0 <= idx <= |a|
      invariant a[..idx] == b[..idx]
      invariant LexLess(a, b) <==> LexLess(a[idx..], b[idx..])
    {
      if a[idx] == b[idx] {
        idx := idx + 1;
        continue;
      }
      DifferOnce(a, b, idx);
      return a[idx] < b[idx];
    }
    LexIrreflexive(a[idx..]);
    return true;
  }

  lemma InsertAt(sorted: seq<seq<nat>>, x: seq<nat>, j: nat)
    requires ShortlexSorted(sorted) && j <= |sorted|
    requires forall m :: 0 <= m < j ==> ShortlexLess(sorted[m], x)
    requires j < |sorted| ==> ShortlexLess(x, sorted[j])
    ensures ShortlexSorted(sorted[..j] + [x] + sorted[j..])
  {
    var r := sorted[..j] + [x] + sorted[j..];
    forall a, b | 0 <= a < b < |r| ensures ShortlexLess(r[a], r[b]) {
      var p, q := if a < j then a else a - 1, if b < j then b else b - 1;
      if a != j && b != j {
        assert r[a] == sorted[p] && r[b] == sorted[q];
      } else if a == j {
        assert r[b] == sorted[q] && (q == j || ShortlexLess(sorted[j], sorted[q]));
        if q != j { ShortlexTransitive(x, sorted[j], sorted[q]); }
      } else {
        assert r[a] == sorted[p];
      }
    }
  }

  lemma InsertCounts(sorted: seq<seq<nat>>, x: seq<nat>, j: nat)
    requires j <= |sorted|
    ensures multiset(sorted[..j] + [x] + sorted[j..]) == multiset(sorted) + multiset{x}
  {
    assert sorted == sorted[..j] + sorted[j..];
  }

  /** Puts `x` before the first route it precedes. */
  method Place(sorted: seq<seq<nat>>, x: seq<nat>) returns (r: seq<seq<nat>>)
    requires ShortlexSorted(sorted) && x !in sorted
    ensures ShortlexSorted(r) && multiset(r) == multiset(sorted) + multiset{x}
  {
    var j := 0;
    while j < |sorted|
      invariant 0 <= j <= |sorted|
      invariant forall m :: 0 <= m < j ==> ShortlexLess(sorted[m], x)
    {
      var before := RouteBefore(x, sorted[j]);
      if before { break; }
      ShortlexTotal(x, sorted[j]);
      j := j + 1;
    }
    InsertAt(sorted, x, j);
    InsertCounts(sorted, x, j);
    r := sorted[..j] + [x] + sorted[j..];
  }

  /** `sort.Slice` with `RouteBefore`, as an insertion sort. */
  method SortRoutes(list: seq<seq<nat>>) returns (sorted: seq<seq<nat>>)
    requires Distinct(list)
    ensures multiset(sorted) == multiset(list)
    ensures ShortlexSorted(sorted)
    ensures forall i, j :: 0 <= i < j < |sorted| ==> |sorted[i]| <= |sorted[j]|
    ensures forall i, j :: 0 <= i < j < |sorted| && |sorted[i]| == |sorted[j]| ==>
      exists m :: 0 <= m < |sorted[i]| && sorted[i][..m] == sorted[j][..m] && sorted[i][m] < sorted[j][m]
  {
    sorted := Sort(list);
    forall i, j | 0 <= i < j < |sorted|
      ensures |sorted[i]| <= |sorted[j]|
      ensures |sorted[i]| == |sorted[j]| ==>
        exists m :: 0 <= m < |sorted[i]| && sorted[i][..m] == sorted[j][..m] && sorted[i][m] < sorted[j][m]
    {
      ShortlexFirstDifference(sorted[i], sorted[j]);
    }
  }

  method Sort(list: seq<seq<nat>>) returns (sorted: seq<seq<nat>>)
    requires Distinct(list)
    ensures multiset(sorted) == multiset(list)
    ensures ShortlexSorted(sorted)
  {
    sorted := [];
    for i := 0 to |list|
      invariant multiset(sorted) == multiset(list[..i])
      invariant ShortlexSorted(sorted)
    {
      assert list[i] !in list[..i];
      assert list[i] !in sorted by { assert list[i] !in multiset(sorted); }
      assert list[..i + 1] == list[..i] + [list[i]];
      sorted := Place(sorted, list[i]);
    }
    assert list[..|list|] == list;
  }

  ghost predicate SortedLists(lists: map<nat, seq<seq<nat>>>) {
    forall d :: d in lists ==> lists[d] != [] && ShortlexSorted(lists[d])
  }

  method SortDests(was: map<nat, seq<seq<nat>>>) returns (lists: map<nat, seq<seq<nat>>>)
    requires NoEmptyList(was) && forall d :: d in was ==> Distinct(was[d])
    ensures lists.Keys == was.Keys && SortedLists(lists)
    ensures forall d :: d in lists ==> multiset(lists[d]) == multiset(was[d])
  {
    lists := was;
    var dests := was.Keys;
    while dests != {}
      invariant dests <= lists.Keys == was.Keys && NoEmptyList(lists)
      invariant forall d :: d in lists ==> multiset(lists[d]) == multiset(was[d])
      invariant forall d :: d in lists ==> if d in dests then lists[d] == was[d] else ShortlexSorted(lists[d])
      decreases dests
    {
      var d :| d in dests;
      dests := dests - {d};
      var sorted := SortRoutes(lists[d]);
      assert |multiset(sorted)| == |multiset(lists[d])|;
      lists := lists[d := sorted];
    }
  }

  lemma ListDistinct(routes: Routes, g: set<(nat, nat)>, s: nat, d: nat, k: nat, list: seq<seq<nat>>)
    requires s in routes && d in routes[s] && ListsExact(routes, g, s, k)
    requires multiset(list) == multiset(routes[s][d])
    ensures Distinct(list)
  {
    forall i, j | 0 <= i < j < |list| ensures list[i] != list[j] {
      assert list == list[..i] + [list[i]] + list[i + 1..j] + [list[j]] + list[j + 1..];
      assert Count(routes, s, d, list[i]) <= 1;
    }
  }

  lemma Reordered(was: Routes, now: Routes, g: set<(nat, nat)>, k: nat, s: nat)
    requires s in was && OthersKept(was, now, s) && now[s].Keys == was[s].Keys
    requires forall d :: d in now[s] ==> multiset(now[s][d]) == multiset(was[s][d])
    requires forall t :: t in was ==> ListsExact(was, g, t, k)
    ensures forall t :: t in now ==> ListsExact(now, g, t, k)
  {
    forall t, d: nat, r: seq<nat> | t in now ensures Count(now, t, d, r) == if RouteTo(g, t, d, r, k) then 1 else 0 {
      assert Count(was, t, d, r) == if RouteTo(g, t, d, r, k) then 1 else 0;
    }
  }

  lemma SameRoutes(a: Routes, b: Routes, g: set<(nat, nat)>, k: nat)
    requires a.Keys == b.Keys && forall s :: s in a ==> ListsExact(a, g, s, k) && ListsExact(b, g, s, k)
    ensures forall s: nat, d: nat, r: seq<nat> :: r in ListOf(a, s, d) <==> r in ListOf(b, s, d)
  {
    forall s: nat, d: nat, r: seq<nat> ensures r in ListOf(a, s, d) <==> r in ListOf(b, s, d) {
      if s in a { assert Count(a, s, d, r) == Count(b, s, d, r); }
    }
  }

  /** A search from an empty route fills the fresh lists of its start exactly. */
  lemma FirstSearch(g: set<(nat, nat)>, s: nat, k: nat, was: Routes, mid: Routes, now: Routes)
    requires s !in was && mid == was[s := map[]] && Grew(mid, now, s, Extensions(g, s, [], k))
    requires forall t :: t in was ==> ListsExact(was, g, t, k) && NoEmptyList(was[t])
    ensures forall t :: t in now ==> ListsExact(now, g, t, k) && NoEmptyList(now[t])
  {
    forall t | t in now ensures ListsExact(now, g, t, k) && NoEmptyList(now[t]) {
      if t == s {
        forall d: nat, r: seq<nat> ensures Count(now, s, d, r) == if RouteTo(g, s, d, r, k) then 1 else 0 {
          assert Count(mid, s, d, r) == 0;
        }
      } else {
        assert now[t] == was[t];
        forall d: nat, r: seq<nat> ensures Count(now, t, d, r) == if RouteTo(g, t, d, r, k) then 1 else 0 {
          assert Count(was, t, d, r) == if RouteTo(g, t, d, r, k) then 1 else 0;
        }
      }
    }
  }

  class RouteInfo {
    var maxHopCount: nat
    var initialPairMap: Rows
    var routesMap: Routes
    var indexToAsset: map<nat, string>
    var assetToIndex: map<string, nat>

    ghost predicate Valid(pairs: seq<Pair>)
      reads this
    {
      && WellFormed(pairs)
      && IndexFor(indexToAsset, assetToIndex, TokenOrder(pairs))
      && PairMapFor(initialPairMap, TokenOrder(pairs), pairs)
      && RoutesFor(routesMap, initialPairMap, maxHopCount + 1)
    }

    /** The bound on the hops is capped. */
    constructor (maxHops: nat)
      ensures maxHopCount == if maxHops > MAX_ROUTE_HOP_COUNT then MAX_ROUTE_HOP_COUNT else maxHops
    {
      maxHopCount := if maxHops > MAX_ROUTE_HOP_COUNT then MAX_ROUTE_HOP_COUNT else maxHops;
      initialPairMap, routesMap, indexToAsset, assetToIndex := map[], map[], map[], map[];
    }

    method SetIndex(pairs: seq<Pair>)
      modifies this`indexToAsset, this`assetToIndex
      ensures IndexFor(indexToAsset, assetToIndex, TokenOrder(pairs))
    {
      indexToAsset, assetToIndex := map[], map[];
      var idx := 0;
      assert pairs[..0] == [];
      for n := 0 to |pairs|
        invariant idx == |TokenOrder(pairs[..n])| && IndexFor(indexToAsset, assetToIndex, TokenOrder(pairs[..n]))
      {
        ghost var order := TokenOrder(pairs[..n]);
        TokenOrderFacts(pairs[..n]);
        var tokens := pairs[n].assetInfos;
        assert tokens[..0] == [] && AddTokens(order, tokens[..0]) == order;
        for m := 0 to |tokens|
          invariant idx == |AddTokens(order, tokens[..m])| &&
              IndexFor(indexToAsset, assetToIndex, AddTokens(order, tokens[..m]))
        {
          AddTokensFacts(order, tokens[..m]);
          assert tokens[..m + 1][..m] == tokens[..m];
          if tokens[m] in assetToIndex {
            continue;
          }
          IndexStep(indexToAsset, assetToIndex, AddTokens(order, tokens[..m]), tokens[m]);
          assetToIndex := assetToIndex[tokens[m] := idx];
          indexToAsset := indexToAsset[idx := tokens[m]];
          idx := idx + 1;
        }
        assert tokens[..|tokens|] == tokens;
        assert pairs[..n + 1][..n] == pairs[..n];
      }
      assert pairs[..|pairs|] == pairs;
    }

    method SetPairMap(pairs: seq<Pair>)
      requires WellFormed(pairs) && IndexFor(indexToAsset, assetToIndex, TokenOrder(pairs))
      modifies this`initialPairMap
      ensures PairMapFor(initialPairMap, TokenOrder(pairs), pairs)
    {
      initialPairMap := map[];
      ghost var order := TokenOrder(pairs);
      TokenOrderFacts(pairs);
      for n := 0 to |pairs|
        invariant PairMapFor(initialPairMap, order, pairs[..n])
      {
        var p := pairs[n];
        assert p in pairs && p.assetInfos[0] in order && p.assetInfos[1] in order;
        var from, to := assetToIndex[p.assetInfos[0]], assetToIndex[p.assetInfos[1]];
        assert pairs[..n + 1][..n] == pairs[..n];
        PairMapStep(initialPairMap, order, pairs[..n + 1], from, to);
        initialPairMap := SetPair(initialPairMap, from, to, p.contract);
        initialPairMap := SetPair(initialPairMap, to, from, p.contract);
      }
      assert pairs[..|pairs|] == pairs;
    }

    /** Appends to the lists from `start` every route that properly extends `route`, and
        leaves `visited` as it found it. */
    method FindAllRoutes(start: nat, current: nat, route: seq<nat>, visited: Visited, hopCount: nat,
                         ghost g: set<(nat, nat)>, ghost k: nat)
      requires g == IndexEdges(initialPairMap) && k == maxHopCount + 1
      requires hopCount == |route| <= k && current == End(start, route)
      requires IsRoute(g, start, route)
      requires forall i, j :: HasPair(initialPairMap, i, j) ==> j in visited.marks
      requires forall v :: Marked(visited.marks, v) <==> v == start || v in route
      requires start in routesMap && NoEmptyList(routesMap[start])
      modifies this`routesMap, visited
      ensures visited.marks == old(visited.marks)
      ensures Grew(old(routesMap), routesMap, start, Extensions(g, start, route, k))
      decreases k - hopCount
    {
      if hopCount > maxHopCount {
        assert Extensions(g, start, route, k) == iset{};
        return;
      }
      var nodes := Row(initialPairMap, current);
      var rest := nodes.Keys;
      GainedNothing(routesMap, start, Through(g, start, route, k, nodes.Keys - rest));
      while rest != {}
        invariant rest <= nodes.Keys
        invariant visited.marks == old(visited.marks)
        invariant Grew(old(routesMap), routesMap, start, Through(g, start, route, k, nodes.Keys - rest))
        decreases rest
      {
        ghost var was, done := routesMap, nodes.Keys - rest;
        var to :| to in rest;
        rest := rest - {to};
        assert nodes.Keys - rest == done + {to};
        assert HasPair(initialPairMap, current, to);
        if to in visited.marks && visited.marks[to] {
          assert Marked(visited.marks, to);
          ThroughStep(g, start, route, k, done, to);
          continue;
        }
        var newRoute := route + [to];
        assert to != start && to !in route && IsRoute(g, start, newRoute) by {
          assert !Marked(visited.marks, to);
          ThroughStep(g, start, route, k, done, to);
        }
        routesMap := Append(routesMap, start, to, newRoute);
        MarkUnmark(visited.marks, to);
        visited.marks := visited.marks[to := true];
        ghost var mid := routesMap;
        FindAllRoutes(start, to, newRoute, visited, hopCount + 1, g, k);
        ghost var now := routesMap;
        visited.marks := visited.marks[to := false];
        SearchStep(g, start, route, k, done, to, old(routesMap), was, mid, now);
      }
      assert nodes.Keys - rest == nodes.Keys;
      ThroughAll(g, start, route, k, nodes.Keys);
    }

    /** Searches from every token, writes the routes if there is a table, and sorts them; a
        failed write leaves the table as it was. */
    method SetRoutesMap(repo: SrcRepo?) returns (ok: bool)
      requires forall i: nat, j: nat :: HasPair(initialPairMap, i, j) ==> HasPair(initialPairMap, j, i)
      modifies this`routesMap, repo
      ensures ok ==> RoutesFor(routesMap, initialPairMap, maxHopCount + 1)
      ensures ok && repo != null ==> Wrote(old(repo.rows), repo.rows, indexToAsset, routesMap)
      ensures !ok ==> repo != null && !repo.healthy && repo.rows == old(repo.rows)
    {
      ghost var g, k := IndexEdges(initialPairMap), maxHopCount + 1;
      SearchAll(g, k);
      if repo != null {
        ok := repo.UpdateRoutes(indexToAsset, routesMap);
        if !ok { return; }
      }
      ghost var unsorted := routesMap;
      SortLists(g, k);
      SameRoutes(unsorted, routesMap, g, k);
      SameListsSameRows(indexToAsset, unsorted, routesMap);
      return true;
    }

    /** The loop over the tokens. */
    method SearchAll(ghost g: set<(nat, nat)>, ghost k: nat)
      requires forall i: nat, j: nat :: HasPair(initialPairMap, i, j) ==> HasPair(initialPairMap, j, i)
      requires g == IndexEdges(initialPairMap) && k == maxHopCount + 1
      modifies this`routesMap
      ensures routesMap.Keys == initialPairMap.Keys
      ensures forall s :: s in routesMap ==> ListsExact(routesMap, g, s, k) && NoEmptyList(routesMap[s])
    {
      routesMap := map[];
      var keys := initialPairMap.Keys;
      var visited := new Visited(keys);
      var rest := keys;
      while rest != {}
        invariant rest <= keys && routesMap.Keys == keys - rest && visited.AllClear(keys)
        invariant forall s :: s in routesMap ==> ListsExact(routesMap, g, s, k) && NoEmptyList(routesMap[s])
        decreases rest
      {
        var key :| key in rest;
        rest := rest - {key};
        SearchFrom(key, visited, keys, g, k);
      }
    }

    /** One round of the loop: all routes from one token. */
    method SearchFrom(key: nat, visited: Visited, ghost keys: set<nat>, ghost g: set<(nat, nat)>, ghost k: nat)
      requires forall i: nat, j: nat :: HasPair(initialPairMap, i, j) ==> HasPair(initialPairMap, j, i)
      requires g == IndexEdges(initialPairMap) && k == maxHopCount + 1
      requires keys == initialPairMap.Keys && key in keys && key !in routesMap && visited.AllClear(keys)
      requires forall s :: s in routesMap ==> ListsExact(routesMap, g, s, k) && NoEmptyList(routesMap[s])
      modifies this`routesMap, visited
      ensures routesMap.Keys == old(routesMap.Keys) + {key} && visited.AllClear(keys)
      ensures forall s :: s in routesMap ==> ListsExact(routesMap, g, s, k) && NoEmptyList(routesMap[s])
    {
      ghost var was := routesMap;
      routesMap := routesMap[key := map[]];
      ghost var mid := routesMap;
      MarkUnmark(visited.marks, key);
      visited.marks := visited.marks[key := true];
      FindAllRoutes(key, key, [], visited, 0, g, k);
      visited.marks := visited.marks[key := false];
      FirstSearch(g, key, k, was, mid, routesMap);
    }

    /** Sorts every list in place; what the lists hold stays the same. */
    method SortLists(ghost g: set<(nat, nat)>, ghost k: nat)
      requires forall s :: s in routesMap ==> ListsExact(routesMap, g, s, k) && NoEmptyList(routesMap[s])
      modifies this`routesMap
      ensures routesMap.Keys == old(routesMap.Keys)
      ensures forall s :: s in routesMap ==> ListsExact(routesMap, g, s, k) && SortedLists(routesMap[s])
    {
      var starts := routesMap.Keys;
      while starts != {}
        invariant starts <= routesMap.Keys == old(routesMap.Keys)
        invariant forall s :: s in routesMap ==> ListsExact(routesMap, g, s, k) && NoEmptyList(routesMap[s])
        invariant forall s :: s in routesMap && s !in starts ==> SortedLists(routesMap[s])
        decreases starts
      {
        var s :| s in starts;
        starts := starts - {s};
        ghost var was := routesMap;
        forall d | d in routesMap[s] ensures Distinct(routesMap[s][d]) {
          ListDistinct(routesMap, g, s, d, k, routesMap[s][d]);
        }
        var lists := SortDests(routesMap[s]);
        routesMap := routesMap[s := lists];
        Reordered(was, routesMap, g, k, s);
      }
    }
  }

  /** The whole cache for a list of pairs, or null when its routes could not be written. */
  method NewRouteInfo(pairs: seq<Pair>, maxHops: nat, repo: SrcRepo?) returns (ri: RouteInfo?)
    requires WellFormed(pairs)
    modifies repo
    ensures ri != null ==> fresh(ri) && ri.Valid(pairs)
    ensures ri != null ==> ri.maxHopCount == if maxHops > MAX_ROUTE_HOP_COUNT then MAX_ROUTE_HOP_COUNT else maxHops
    ensures ri != null && repo != null ==> Wrote(old(repo.rows), repo.rows, ri.indexToAsset, ri.routesMap)
    ensures ri == null ==> repo != null && !repo.healthy && repo.rows == old(repo.rows)
  {
    ri := new RouteInfo(maxHops);
    ri.SetIndex(pairs);
    ri.SetPairMap(pairs);
    PairMapSymmetric(ri.initialPairMap, TokenOrder(pairs), pairs);
    var ok := ri.SetRoutesMap(repo);
    if !ok { return null; }
  }
}
